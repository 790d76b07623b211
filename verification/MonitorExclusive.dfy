/** A connection that a host routine or the race holds is nobody else's: it is open, and no other party can close it. */
module MonitorExclusive {
  import opened Strings
  import opened Topology
  import opened TopologyMonitor
  import opened MonitorInvariants
  import opened MonitorOwnership

  /** A connection that is closed, or that the monitor or a refresh call may use or close. */
  ghost predicate Public(s: State, c: ConnId) {
    c in s.conns.closed || s.link.monitoringConn == Some(c) || MonitorHolds(s.mpc, c) || SomeCallHolds(s.calls, c)
  }

  /** A routine's connection is not public, not the elected one, and not another routine's. */
  ghost predicate OwnConn(s: State, r: RoutineId)
    requires r in s.routines
  {
    s.routines[r].conn.Some? ==>
      && !Public(s, s.routines[r].conn.value) && s.race.hostRoutinesWriterConn != s.routines[r].conn
      && forall q :: q in s.routines && q != r ==> s.routines[q].conn != s.routines[r].conn
  }

  ghost predicate ExclusiveInv(s: State) {
    && (forall c: ConnId :: Public(s, c) ==> c in s.conns.dialed)
    && (s.hostRoutinesReaderConn.Some? ==> s.hostRoutinesReaderConn.value in s.conns.dialed)
    && (forall r :: r in s.routines ==> OwnConn(s, r))
    && (!s.race.adopted && s.race.hostRoutinesWriterConn.Some? ==> !Public(s, s.race.hostRoutinesWriterConn.value))
  }

  /** Nothing becomes public but what has just been dialed. */
  ghost predicate PublicStays(s: State, t: State) {
    && s.conns.dialed.Keys <= t.conns.dialed.Keys
    && forall c: ConnId :: Public(t, c) ==> Public(s, c) || (c in t.conns.dialed && c !in s.conns.dialed)
  }

  // ---------------------------------------------------------------------------------------------
  // Steps of the monitor
  // ---------------------------------------------------------------------------------------------

  /** A monitor step that leaves the race alone or empties it. */
  predicate RaceStays(s: State, t: State) {
    && (t.race.hostRoutinesWriterConn == s.race.hostRoutinesWriterConn || t.race.hostRoutinesWriterConn == None)
    && (t.race.adopted == s.race.adopted || t.race.hostRoutinesWriterConn == None || t.race.adopted)
    && (t.hostRoutinesReaderConn == s.hostRoutinesReaderConn || t.hostRoutinesReaderConn == None)
  }

  lemma ExclusiveFrame(s: State, t: State)
    requires ExclusiveInv(s) && ElectionInv(s) && PublicStays(s, t) && RaceStays(s, t) && t.routines == s.routines
    ensures ExclusiveInv(t)
  {
    forall r | r in t.routines ensures OwnConn(t, r) {
      assert OwnConn(s, r) && SoundRoutine(s.routines[r], s.race, s.conns);
    }
  }

  /** A routine that has just been started has no connection. */
  lemma ExclusiveSpawn(s: State, t: State, id: RoutineId)
    requires ExclusiveInv(s) && ElectionInv(s) && PublicStays(s, t) && RaceStays(s, t)
    requires StartsAtMost(s, t, id) && id !in s.routines
    ensures ExclusiveInv(t)
  {
    forall r | r in t.routines ensures OwnConn(t, r) {
      if r in s.routines {
        assert OwnConn(s, r) && SoundRoutine(s.routines[r], s.race, s.conns);
        assert t.routines[r] == s.routines[r];
      }
    }
  }

  lemma HeadPublic(s: State)
    requires s.mpc.AtHead?
    ensures PublicStays(s, HeadNext(s)) && RaceStays(s, HeadNext(s)) && HeadNext(s).routines == s.routines
  {
    match s.mpc.head {
      case Head =>
      case HeadVerified =>
      case Panic =>
      case StartHosts =>
    }
  }

  lemma OpenRace(s: State, o: Oracle)
    requires s.mpc.Opening?
    ensures RaceStays(s, OpenNext(s, o)) && OpenNext(s, o).routines == s.routines
    ensures OpenNext(s, o).calls == s.calls && s.conns.dialed.Keys <= OpenNext(s, o).conns.dialed.Keys
  {
  }

  lemma OpenPublic(s: State, o: Oracle, c: ConnId)
    requires s.mpc.Opening? && (o.dial.Connected? ==> o.dial.conn !in s.conns.dialed) && Public(OpenNext(s, o), c)
    ensures Public(s, c) || (c in OpenNext(s, o).conns.dialed && c !in s.conns.dialed)
  {
    match s.mpc.open {
      case OpenLoad =>
      case OpenConnect =>
      case OpenSwap(_) =>
      case OpenCloseExtra(_) =>
      case OpenAsk =>
      case OpenVerified =>
      case OpenWriterHost =>
      case OpenFetch =>
      case OpenQuery(_) =>
      case OpenFailLoad =>
      case OpenFailStore(_) =>
      case OpenFailClose(_) =>
      case OpenFailVerified =>
      case OpenFailHost =>
    }
  }

  lemma OpenStays(s: State, o: Oracle)
    requires s.mpc.Opening? && (o.dial.Connected? ==> o.dial.conn !in s.conns.dialed)
    ensures PublicStays(s, OpenNext(s, o)) && RaceStays(s, OpenNext(s, o)) && OpenNext(s, o).routines == s.routines
  {
    OpenRace(s, o);
    forall c: ConnId | Public(OpenNext(s, o), c)
      ensures Public(s, c) || (c in OpenNext(s, o).conns.dialed && c !in s.conns.dialed)
    {
      OpenPublic(s, o, c);
    }
  }

  lemma SpawnPublic(s: State, o: Oracle)
    requires s.mpc.Starting?
    ensures PublicStays(s, SpawnNext(s, o)) && RaceStays(s, SpawnNext(s, o))
  {
    match s.mpc.spawn {
      case SpawnTest(_) =>
      case Spawning(_) =>
      case GrowTest =>
      case Growing(_) =>
    }
  }

  lemma AdoptPublic(s: State)
    requires s.mpc.Adopting? && !s.mpc.adopt.AdoptStore?
    ensures PublicStays(s, AdoptNext(s)) && RaceStays(s, AdoptNext(s)) && AdoptNext(s).routines == s.routines
  {
    match s.mpc.adopt {
      case AdoptHost(_) =>
      case AdoptLoad(_, _) =>
      case AdoptClose(_, _, _) =>
      case AdoptWriterHost(_) =>
      case AdoptVerified =>
      case AdoptStop =>
      case AdoptWait =>
    }
  }

  lemma RegularRace(s: State, o: Oracle)
    requires s.mpc.InRegular?
    ensures RaceStays(s, RegularNext(s, o)) && RegularNext(s, o).routines == s.routines
    ensures RegularNext(s, o).calls == s.calls && s.conns.dialed.Keys <= RegularNext(s, o).conns.dialed.Keys
  {
  }

  lemma RegularPublic(s: State, o: Oracle, c: ConnId)
    requires s.mpc.InRegular? && Public(RegularNext(s, o), c)
    ensures Public(s, c)
  {
    match s.mpc.regular {
      case RegularStop =>
      case RegularWait =>
      case RegularFetch =>
      case RegularQuery(_) =>
      case RegularFailLoad =>
      case RegularFailClose(_) =>
      case RegularFailStore =>
      case RegularFailVerified =>
      case RegularFailHost =>
    }
  }

  lemma RegularStays(s: State, o: Oracle)
    requires s.mpc.InRegular?
    ensures PublicStays(s, RegularNext(s, o)) && RaceStays(s, RegularNext(s, o)) && RegularNext(s, o).routines == s.routines
  {
    RegularRace(s, o);
    forall c: ConnId | Public(RegularNext(s, o), c) ensures Public(s, c) {
      RegularPublic(s, o, c);
    }
  }

  /** Taking over the elected connection makes it public; nobody else had it. */
  lemma ExclusiveAdopt(s: State)
    requires ExclusiveInv(s) && ElectionInv(s) && s.mpc.Adopting? && s.mpc.adopt.AdoptStore?
    ensures ExclusiveInv(AdoptNext(s))
  {
    var t, c := AdoptNext(s), s.mpc.adopt.writer;
    assert forall d: ConnId :: Public(t, d) ==> Public(s, d) || d == c;
    assert SoundWin(s.race.wins[|s.race.wins| - 1], s.race, s.conns);
    forall r | r in t.routines ensures OwnConn(t, r) {
      assert OwnConn(s, r);
    }
  }

  /** A reset finds all routines without connections. */
  lemma ExclusiveReset(s: State)
    requires ExclusiveInv(s) && ElectionInv(s) && RoundInv(s) && s.mpc.Resetting? && AllDone(s)
    ensures ExclusiveInv(ResetNext(s))
  {
    var t := ResetNext(s);
    forall r | r in t.routines ensures OwnConn(t, r) {
      assert EmptyHanded(s.routines[r]);
    }
    assert s.race.hostRoutinesWriterConn.Some? ==>
             SoundWin(s.race.wins[|s.race.wins| - 1], s.race, s.conns);
    forall c: ConnId | Public(t, c) ensures c in t.conns.dialed {
      assert c in s.conns.closed || s.race.hostRoutinesWriterConn == Some(c) || s.hostRoutinesReaderConn == Some(c)
          || s.link.monitoringConn == Some(c) || SomeCallHolds(s.calls, c);
      assert c in s.conns.closed || s.link.monitoringConn == Some(c) || SomeCallHolds(s.calls, c) ==> Public(s, c);
    }
  }

  lemma CheckPublic(s: State, t: State)
    requires s.mpc.Checking? && OnlyChecks(s, t) && t.hostRoutinesReaderConn == s.hostRoutinesReaderConn
    ensures PublicStays(s, t) && RaceStays(s, t)
  {
  }

  lemma CheckKeepsReaderConn(s: State, o: Oracle, agree: bool)
    requires s.mpc.Checking? && PicksReport(s, o)
    ensures CheckNext(s, o, agree).hostRoutinesReaderConn == s.hostRoutinesReaderConn
  {
    match s.mpc.check {
      case CheckStored =>
      case CheckCycles(_, _) =>
      case CheckReports(_, _) =>
      case CheckStore(_) =>
    }
  }

  /** The monitor's steps that start no routine, take over no connection and reset nothing. */
  predicate IsPlainStep(pc: MonitorPc) {
    !pc.Starting? && !(pc.Adopting? && pc.adopt.AdoptStore?) && !pc.Resetting?
  }

  lemma PlainStays(s: State, o: Oracle)
    requires MonitorEnabled(s, o) && IsPlainStep(s.mpc)
    ensures PublicStays(s, MonitorNext(s, o)) && RaceStays(s, MonitorNext(s, o)) && MonitorNext(s, o).routines == s.routines
  {
    if s.mpc.AtHead? { HeadPublic(s); }
    else if s.mpc.Opening? { OpenStays(s, o); }
    else if s.mpc.Adopting? { AdoptPublic(s); }
    else if s.mpc.Checking? {
      var agree := SameKeys(s.topologies.readerTopologiesById);
      CheckIsLocal(s, o, agree);
      CheckKeepsReaderConn(s, o, agree);
      CheckPublic(s, CheckNext(s, o, agree));
    }
    else { RegularStays(s, o); }
  }

  lemma ExclusiveMonitor(s: State, o: Oracle)
    requires ExclusiveInv(s) && ElectionInv(s) && RoundInv(s) && MonitorEnabled(s, o)
    ensures ExclusiveInv(MonitorNext(s, o))
  {
    if s.mpc.Starting? {
      SpawnStarts(s, o);
      SpawnPublic(s, o);
      ExclusiveSpawn(s, SpawnNext(s, o), o.routine);
    }
    else if s.mpc.Resetting? { ExclusiveReset(s); }
    else if s.mpc.Adopting? && s.mpc.adopt.AdoptStore? { ExclusiveAdopt(s); }
    else {
      PlainStays(s, o);
      ExclusiveFrame(s, MonitorNext(s, o));
    }
  }

  // ---------------------------------------------------------------------------------------------
  // Steps of a routine
  // ---------------------------------------------------------------------------------------------

  /** What a routine may do with its connection: keep it, open a new one, close it, or win with it. */
  predicate Moves(s: State, t: State, r: RoutineId)
    requires r in s.routines && r in t.routines
  {
    var before, after := s.routines[r].conn, t.routines[r].conn;
    && (t.hostRoutinesReaderConn == s.hostRoutinesReaderConn || t.hostRoutinesReaderConn == before)
    && t.race.adopted == s.race.adopted
    && (|| (after == before && t.conns.closed == s.conns.closed && t.conns.dialed == s.conns.dialed
            && t.race.hostRoutinesWriterConn == s.race.hostRoutinesWriterConn)
        || (before == None && after.Some? && after.value !in s.conns.dialed
            && t.conns.dialed.Keys == s.conns.dialed.Keys + {after.value} && t.conns.closed == s.conns.closed
            && t.race.hostRoutinesWriterConn == s.race.hostRoutinesWriterConn)
        || (after == None && t.conns == CloseConn(s.conns, before)
            && t.race.hostRoutinesWriterConn == s.race.hostRoutinesWriterConn)
        || (after == None && before.Some? && t.conns == s.conns && t.race.hostRoutinesWriterConn == before))
  }

  lemma VerifyMoves(s: State, r: RoutineId, o: Oracle)
    requires r in s.routines && s.routines[r].pc.Verifying? && EmptyHanded(s.routines[r])
    requires o.dial.Connected? ==> o.dial.conn !in s.conns.dialed
    ensures r in VerifyNext(s, r, o).routines && Moves(s, VerifyNext(s, r, o), r)
  {
    match s.routines[r].pc.verify {
      case Top =>
      case Connecting =>
      case AskWriter =>
      case CloseFailed =>
      case AskRole =>
    }
  }

  lemma ElectMoves(s: State, r: RoutineId, o: Oracle)
    requires r in s.routines && s.routines[r].pc.Electing?
    ensures r in ElectNext(s, r, o).routines && Moves(s, ElectNext(s, r, o), r)
  {
    match s.routines[r].pc.elect {
      case Elect =>
      case CloseLoser =>
      case Publish =>
      case Announce =>
      case SignalStop =>
    }
  }

  lemma ReadMoves(s: State, r: RoutineId, o: Oracle, moved: bool)
    requires r in s.routines && s.routines[r].pc.Reading?
    ensures r in ReaderNext(s, r, o, moved).routines && Moves(s, ReaderNext(s, r, o, moved), r)
  {
    match s.routines[r].pc.read {
      case ReaderBranch =>
      case TryReader =>
      case Fetch =>
      case ShareLatest(_) =>
      case ShareReport(_) =>
      case StoreReport(_) =>
    }
  }

  lemma LeaveMoves(s: State, r: RoutineId)
    requires r in s.routines && s.routines[r].pc.Leaving?
    ensures r in LeaveNext(s, r).routines && Moves(s, LeaveNext(s, r), r)
  {
    match s.routines[r].pc.leave {
      case MarkCycle(_, _) =>
      case DropReport(_) =>
      case CloseOnLeave =>
    }
  }

  /** Whatever the routine did, only its former connection may have become public. */
  lemma MovedPublic(s: State, t: State, r: RoutineId, c: ConnId)
    requires r in s.routines && OnlyRoutine(s, t, r) && Moves(s, t, r) && Public(t, c)
    ensures Public(s, c) || (s.routines[r].conn == Some(c) && t.routines[r].conn == None)
  {
  }

  lemma MovedOwn(s: State, t: State, r: RoutineId, q: RoutineId)
    requires ExclusiveInv(s) && ElectionInv(s) && r in s.routines && OnlyRoutine(s, t, r) && Moves(s, t, r)
    requires q in t.routines
    ensures OwnConn(t, q)
  {
    assert OwnConn(s, r) && OwnConn(s, q) && SoundRoutine(s.routines[q], s.race, s.conns);
    if t.routines[q].conn.Some? && Public(t, t.routines[q].conn.value) {
      MovedPublic(s, t, r, t.routines[q].conn.value);
    }
    forall p | p in t.routines && p != q && t.routines[q].conn.Some? ensures t.routines[p].conn != t.routines[q].conn {
      assert OwnConn(s, p) && SoundRoutine(s.routines[p], s.race, s.conns);
    }
    assert s.race.hostRoutinesWriterConn.Some? ==> SoundWin(s.race.wins[|s.race.wins| - 1], s.race, s.conns);
  }

  lemma ExclusiveMoved(s: State, t: State, r: RoutineId)
    requires ExclusiveInv(s) && ElectionInv(s) && r in s.routines && OnlyRoutine(s, t, r) && Moves(s, t, r)
    ensures ExclusiveInv(t)
  {
    assert OwnConn(s, r) && SoundRoutine(s.routines[r], s.race, s.conns);
    forall c: ConnId | Public(t, c) ensures c in t.conns.dialed {
      MovedPublic(s, t, r, c);
    }
    forall q | q in t.routines ensures OwnConn(t, q) {
      MovedOwn(s, t, r, q);
    }
    if !t.race.adopted && t.race.hostRoutinesWriterConn.Some? && Public(t, t.race.hostRoutinesWriterConn.value) {
      MovedPublic(s, t, r, t.race.hostRoutinesWriterConn.value);
    }
  }

  lemma RoutineMoves(s: State, r: RoutineId, o: Oracle)
    requires RoutineEnabled(s, r, o) && EmptyHanded(s.routines[r])
    ensures OnlyRoutine(s, RoutineNext(s, r, o), r) && Moves(s, RoutineNext(s, r, o), r)
  {
    var pc := s.routines[r].pc;
    if pc.Verifying? {
      VerifyIsLocal(s, r, o);
      VerifyMoves(s, r, o);
    } else if pc.Electing? {
      ElectIsLocal(s, r, o);
      ElectMoves(s, r, o);
    } else if pc.Reading? {
      var moved := WriterMoved(s.routines[r], Report(pc));
      ReadIsLocal(s, r, o, moved);
      ReadMoves(s, r, o, moved);
    } else {
      LeaveIsLocal(s, r);
      LeaveMoves(s, r);
    }
  }

  lemma ExclusiveRoutine(s: State, r: RoutineId, o: Oracle)
    requires ExclusiveInv(s) && ElectionInv(s) && RoundInv(s) && RoutineEnabled(s, r, o)
    ensures ExclusiveInv(RoutineNext(s, r, o))
  {
    assert EmptyHanded(s.routines[r]);
    RoutineMoves(s, r, o);
    ExclusiveMoved(s, RoutineNext(s, r, o), r);
  }

  // ---------------------------------------------------------------------------------------------
  // Every step
  // ---------------------------------------------------------------------------------------------

  lemma CallPublic(s: State, k: CallId)
    requires k in s.calls
    ensures PublicStays(s, CallNext(s, k)) && RaceStays(s, CallNext(s, k)) && CallNext(s, k).routines == s.routines
  {
    var t := CallNext(s, k);
    forall c: ConnId | SomeCallHolds(t.calls, c) ensures SomeCallHolds(s.calls, c) {
      var j :| j in t.calls && CallHolds(t.calls[j], c);
      assert CallHolds(s.calls[j], c);
    }
    match s.calls[k] {
      case CallStore(_) =>
      case CallUnverify(_) =>
      case CallClose(l) => assert l.Some? ==> CallHolds(s.calls[k], l.value);
      case CallOver =>
    }
  }

  lemma OtherPublic(s: State, e: Event)
    requires Enabled(s, e) && !e.MonitorStep? && !e.RoutineStep? && !e.CallStep?
    ensures PublicStays(s, Next(s, e)) && RaceStays(s, Next(s, e)) && Next(s, e).routines == s.routines
  {
    var t := Next(s, e);
    forall c: ConnId | SomeCallHolds(t.calls, c) ensures Public(s, c) {
      var j :| j in t.calls && CallHolds(t.calls[j], c);
      assert j in s.calls ==> CallHolds(s.calls[j], c);
    }
  }

  /** In every step, what a routine or the race holds stays out of everybody else's hands. */
  lemma ExclusiveKept(s: State, e: Event)
    requires ExclusiveInv(s) && ElectionInv(s) && RoundInv(s) && Enabled(s, e)
    ensures ExclusiveInv(Next(s, e))
  {
    match e {
      case MonitorStep(o) => ExclusiveMonitor(s, o);
      case RoutineStep(r, o) => ExclusiveRoutine(s, r, o);
      case CallStep(k) =>
        CallPublic(s, k);
        ExclusiveFrame(s, CallNext(s, k));
      case _ =>
        OtherPublic(s, e);
        ExclusiveFrame(s, Next(s, e));
    }
  }

  /** The connection the monitor takes over is open. */
  lemma AdoptedConnIsOpen(s: State)
    requires ExclusiveInv(s) && ElectionInv(s) && s.mpc.Adopting? && s.mpc.adopt.AdoptStore? && !s.race.adopted
    ensures s.mpc.adopt.writer !in s.conns.closed && s.mpc.adopt.writer in s.conns.dialed
    ensures AdoptNext(s).link.monitoringConn == Some(s.mpc.adopt.writer)
  {
    assert SoundWin(s.race.wins[|s.race.wins| - 1], s.race, s.conns);
  }
}
