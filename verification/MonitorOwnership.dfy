/** Who is responsible for every connection the topology monitor ever opened. */
module MonitorOwnership {
  import opened Strings
  import opened Topology
  import opened TopologyMonitor
  import opened MonitorInvariants

  predicate MonitorHolds(pc: MonitorPc, c: ConnId) {
    || pc == Opening(OpenSwap(c)) || pc == Opening(OpenCloseExtra(c))
    || pc == Opening(OpenFailStore(Some(c))) || pc == Opening(OpenFailClose(Some(c)))
    || (pc.Adopting? && pc.adopt.AdoptClose? && pc.adopt.loaded == Some(c))
    || pc == InRegular(RegularFailClose(Some(c)))
  }

  predicate CallHolds(pc: CallPc, c: ConnId) {
    pc == CallStore(Some(c)) || pc == CallUnverify(Some(c)) || pc == CallClose(Some(c))
  }

  ghost predicate RoutineHolds(routines: map<RoutineId, Routine>, c: ConnId) {
    exists r :: r in routines && routines[r].conn == Some(c)
  }

  ghost predicate SomeCallHolds(calls: map<CallId, CallPc>, c: ConnId) {
    exists k :: k in calls && CallHolds(calls[k], c)
  }

  /** Somebody other than the owner of the monitoring connection will still use or close `c`: it is the elected
      connection not yet taken over, a routine's own one, one the monitor has in its hands, or one a `ForceRefresh`
      call has looked at and not closed yet. */
  ghost predicate HeldApart(s: State, c: ConnId) {
    || (!s.race.adopted && s.race.hostRoutinesWriterConn == Some(c))
    || RoutineHolds(s.routines, c)
    || MonitorHolds(s.mpc, c)
    || SomeCallHolds(s.calls, c)
  }

  ghost predicate Safe(s: State, c: ConnId) {
    c in s.conns.closed || s.link.monitoringConn == Some(c) || HeldApart(s, c)
  }

  /** An open connection in nobody's hands. Only a reset can still close it, and only while the atomics of the round in
      which it was elected have not been cleared. */
  ghost predicate Orphaned(s: State, c: ConnId) {
    c in s.conns.dialed && !Safe(s, c)
  }

  /** A `ForceRefresh` call empties `monitoringConn`, and with that nobody has `c` any more. */
  ghost predicate Orphans(s: State, e: Event, c: ConnId) {
    && e.CallStep? && e.k in s.calls && s.calls[e.k].CallStore? && s.calls[e.k].loaded != Some(c)
    && s.link.monitoringConn == Some(c) && c !in s.conns.closed && !HeldApart(s, c)
  }

  /** The last steps of an adoption: the elected connection has become the monitoring connection. */
  predicate IsTail(pc: MonitorPc) {
    pc.Adopting? && (pc.adopt.AdoptWriterHost? || pc.adopt.AdoptVerified? || pc.adopt.AdoptStop? || pc.adopt.AdoptWait?)
  }

  predicate IsSpawning(pc: MonitorPc) {
    IsStarting(pc) || (pc.Starting? && pc.spawn.Spawning?)
  }

  /** Before the monitor overwrites `monitoringConn`, what is there is about to be closed or already closed. */
  predicate Overwritable(pc: MonitorPc, current: Option<ConnId>, closed: set<ConnId>) {
    && (pc.Adopting? && pc.adopt.AdoptClose? ==> current == None || current == pc.adopt.loaded)
    && (pc.Adopting? && pc.adopt.AdoptStore? ==> current == None || current.value in closed)
    && (pc.Opening? && pc.open.OpenFailStore? ==> current == None || current == pc.open.loaded)
    && (pc.InRegular? && pc.regular.RegularFailClose? ==> current == None || current == pc.regular.loaded)
    && (pc.InRegular? && pc.regular.RegularFailStore? ==> current == None || current.value in closed)
  }

  /** A routine that has ended, or is about to connect, has no connection. */
  predicate EmptyHanded(h: Routine) {
    h.pc.Done? || h.pc == Verifying(Connecting) ==> h.conn == None
  }

  ghost predicate RoundInv(s: State) {
    && Overwritable(s.mpc, s.link.monitoringConn, s.conns.closed)
    && (IsTail(s.mpc) ==> s.race.adopted && s.race.hostRoutinesWriterConn.Some?)
    && ((s.hostRoutines != {} || IsSpawning(s.mpc)) && !IsTail(s.mpc) ==> !s.race.adopted)
    && (s.hostRoutines == {} ==> s.race.adopted || s.race.hostRoutinesWriterConn == None)
    && forall r :: r in s.routines ==> EmptyHanded(s.routines[r])
  }

  // ---------------------------------------------------------------------------------------------
  // The monitor's steps
  // ---------------------------------------------------------------------------------------------

  lemma HeadOwns(s: State, c: ConnId)
    requires PanicInv(s) && RoundInv(s) && s.mpc.AtHead? && c in s.conns.dialed && Safe(s, c)
    ensures Safe(HeadNext(s), c)
  {
    match s.mpc.head {
      case Head =>
      case HeadVerified =>
      case Panic =>
      case StartHosts =>
    }
  }

  lemma OpenOwns(s: State, o: Oracle, c: ConnId)
    requires RoundInv(s) && s.mpc.Opening?
    requires (c in s.conns.dialed && Safe(s, c))
          || (s.mpc == Opening(OpenConnect) && o.dial == Connected(c))
    ensures Safe(OpenNext(s, o), c)
  {
    match s.mpc.open {
      case OpenLoad =>
      case OpenConnect =>
      case OpenSwap(_) =>
      case OpenCloseExtra(_) =>
      case OpenAsk =>
      case OpenVerified =>
      case OpenWriterHost =>
      case OpenFetch =>
      case OpenQuery(_) =>
      case OpenFailLoad =>
      case OpenFailStore(_) =>
      case OpenFailClose(_) =>
      case OpenFailVerified =>
      case OpenFailHost =>
    }
  }

  lemma OpenDials(s: State, o: Oracle)
    requires s.mpc.Opening?
    ensures forall c :: c in OpenNext(s, o).conns.dialed ==>
              c in s.conns.dialed || (s.mpc == Opening(OpenConnect) && o.dial == Connected(c))
  {
  }

  lemma SpawnOwns(s: State, o: Oracle, c: ConnId)
    requires RoundInv(s) && s.mpc.Starting? && o.routine !in s.routines && Safe(s, c)
    ensures Safe(SpawnNext(s, o), c)
  {
    if RoutineHolds(s.routines, c) {
      var r :| r in s.routines && s.routines[r].conn == Some(c);
      SpawnStarts(s, o);
      var t := SpawnNext(s, o);
      assert r in t.routines && t.routines[r] == s.routines[r];
    }
  }

  lemma AdoptOwns(s: State, c: ConnId)
    requires ElectionInv(s) && RoundInv(s) && s.mpc.Adopting? && Safe(s, c)
    ensures Safe(AdoptNext(s), c)
  {
    match s.mpc.adopt {
      case AdoptHost(_) =>
      case AdoptLoad(_, _) =>
      case AdoptClose(_, _, _) =>
      case AdoptStore(_, _) =>
      case AdoptWriterHost(_) =>
      case AdoptVerified =>
      case AdoptStop =>
      case AdoptWait =>
    }
  }

  lemma CheckOwns(s: State, t: State, c: ConnId)
    requires s.mpc.Checking? && OnlyChecks(s, t) && Safe(s, c)
    ensures Safe(t, c)
  {
  }

  lemma RegularOwns(s: State, o: Oracle, c: ConnId)
    requires RoundInv(s) && s.mpc.InRegular? && Safe(s, c)
    ensures Safe(RegularNext(s, o), c)
  {
    match s.mpc.regular {
      case RegularStop =>
      case RegularWait =>
      case RegularFetch =>
      case RegularQuery(_) =>
      case RegularFailLoad =>
      case RegularFailClose(_) =>
      case RegularFailStore =>
      case RegularFailVerified =>
      case RegularFailHost =>
    }
  }

  lemma ResetOwns(s: State, c: ConnId)
    requires s.mpc.Resetting? && Safe(s, c)
    ensures Safe(ResetNext(s), c)
  {
  }

  lemma AdoptDialsNobody(s: State)
    requires s.mpc.Adopting?
    ensures AdoptNext(s).conns.dialed == s.conns.dialed
  {
    match s.mpc.adopt {
      case AdoptHost(_) =>
      case AdoptLoad(_, _) =>
      case AdoptClose(_, _, _) =>
      case AdoptStore(_, _) =>
      case AdoptWriterHost(_) =>
      case AdoptVerified =>
      case AdoptStop =>
      case AdoptWait =>
    }
  }

  lemma RegularDialsNobody(s: State, o: Oracle)
    requires s.mpc.InRegular?
    ensures RegularNext(s, o).conns.dialed == s.conns.dialed
  {
    match s.mpc.regular {
      case RegularStop =>
      case RegularWait =>
      case RegularFetch =>
      case RegularQuery(_) =>
      case RegularFailLoad =>
      case RegularFailClose(_) =>
      case RegularFailStore =>
      case RegularFailVerified =>
      case RegularFailHost =>
    }
  }

  lemma MonitorOwns(s: State, o: Oracle, c: ConnId)
    requires PanicInv(s) && ElectionInv(s) && RoundInv(s) && MonitorEnabled(s, o)
    requires c in MonitorNext(s, o).conns.dialed && !Orphaned(s, c)
    ensures Safe(MonitorNext(s, o), c)
  {
    if s.mpc.Opening? {
      OpenDials(s, o);
      OpenOwns(s, o, c);
    } else {
      if s.mpc.AtHead? { HeadOwns(s, c); }
      else if s.mpc.Starting? { SpawnStarts(s, o); SpawnOwns(s, o, c); }
      else if s.mpc.Adopting? { AdoptDialsNobody(s); AdoptOwns(s, c); }
      else if s.mpc.Checking? {
        CheckIsLocal(s, o, SameKeys(s.topologies.readerTopologiesById));
        CheckOwns(s, MonitorNext(s, o), c);
      }
      else if s.mpc.InRegular? { RegularDialsNobody(s, o); RegularOwns(s, o, c); }
      else { ResetOwns(s, c); }
    }
  }

  // ---------------------------------------------------------------------------------------------
  // A routine's steps
  // ---------------------------------------------------------------------------------------------

  /** What may happen to a routine's connection in one step: nothing, it is opened, it is closed, or it wins. */
  ghost predicate HandsOver(s: State, t: State, r: RoutineId)
    requires r in s.routines && r in t.routines
  {
    var before, after := s.routines[r].conn, t.routines[r].conn;
    && s.conns.closed <= t.conns.closed
    && t.race.adopted == s.race.adopted
    && (forall c :: c in t.conns.dialed ==> c in s.conns.dialed || after == Some(c))
    && (t.race.hostRoutinesWriterConn == s.race.hostRoutinesWriterConn || s.race.hostRoutinesWriterConn == None)
    && (before.Some? ==> after == before || before.value in t.conns.closed
                         || (s.race.hostRoutinesWriterConn == None && t.race.hostRoutinesWriterConn == before))
  }

  lemma ConnectHands(s: State, r: RoutineId, o: Oracle)
    requires r in s.routines && s.routines[r].pc == Verifying(Connecting) && EmptyHanded(s.routines[r])
    ensures r in VerifyNext(s, r, o).routines && HandsOver(s, VerifyNext(s, r, o), r)
    ensures EmptyHanded(VerifyNext(s, r, o).routines[r])
  {
    match o.dial {
      case Connected(_) =>
      case NothingReturned =>
      case LoginError =>
      case _ =>
    }
  }

  lemma AskHands(s: State, r: RoutineId, o: Oracle)
    requires r in s.routines && s.routines[r].pc == Verifying(AskWriter) && EmptyHanded(s.routines[r])
    ensures r in VerifyNext(s, r, o).routines && HandsOver(s, VerifyNext(s, r, o), r)
    ensures EmptyHanded(VerifyNext(s, r, o).routines[r])
  {
    match o.answer {
      case Yes =>
      case No =>
      case Failed =>
    }
  }

  lemma VerifyHands(s: State, r: RoutineId, o: Oracle)
    requires r in s.routines && s.routines[r].pc.Verifying?
    requires EmptyHanded(s.routines[r])
    ensures r in VerifyNext(s, r, o).routines && HandsOver(s, VerifyNext(s, r, o), r)
    ensures EmptyHanded(VerifyNext(s, r, o).routines[r])
  {
    if s.routines[r].pc.verify.Connecting? { ConnectHands(s, r, o); }
    else if s.routines[r].pc.verify.AskWriter? { AskHands(s, r, o); }
  }

  lemma ElectHands(s: State, r: RoutineId, o: Oracle)
    requires r in s.routines && s.routines[r].pc.Electing?
    ensures r in ElectNext(s, r, o).routines && HandsOver(s, ElectNext(s, r, o), r)
    ensures EmptyHanded(ElectNext(s, r, o).routines[r])
  {
    match s.routines[r].pc.elect {
      case Elect =>
      case CloseLoser =>
      case Publish =>
      case Announce =>
      case SignalStop =>
    }
  }

  lemma ReadHands(s: State, r: RoutineId, o: Oracle, moved: bool)
    requires r in s.routines && s.routines[r].pc.Reading?
    ensures r in ReaderNext(s, r, o, moved).routines && HandsOver(s, ReaderNext(s, r, o, moved), r)
    ensures EmptyHanded(ReaderNext(s, r, o, moved).routines[r])
  {
    match s.routines[r].pc.read {
      case ReaderBranch =>
      case TryReader =>
      case Fetch =>
      case ShareLatest(_) =>
      case ShareReport(_) =>
      case StoreReport(_) =>
    }
  }

  lemma LeaveHands(s: State, r: RoutineId)
    requires r in s.routines && s.routines[r].pc.Leaving?
    ensures r in LeaveNext(s, r).routines && HandsOver(s, LeaveNext(s, r), r)
    ensures EmptyHanded(LeaveNext(s, r).routines[r])
  {
    match s.routines[r].pc.leave {
      case MarkCycle(_, _) =>
      case DropReport(_) =>
      case CloseOnLeave =>
    }
  }

  lemma RoutineOwns(s: State, t: State, r: RoutineId, c: ConnId)
    requires PanicInv(s) && RoundInv(s) && !Orphaned(s, c) && r in s.routines && !s.routines[r].pc.Done?
    requires OnlyRoutine(s, t, r) && HandsOver(s, t, r)
    requires c in t.conns.dialed
    ensures Safe(t, c)
  {
    assert s.hostRoutines != {};
    if t.routines[r].conn == Some(c) {
      assert RoutineHolds(t.routines, c);
    } else if RoutineHolds(s.routines, c) {
      var q :| q in s.routines && s.routines[q].conn == Some(c);
      if q != r {
        assert q in t.routines && t.routines[q].conn == Some(c);
      }
    } else {
      assert Safe(s, c);
    }
  }

  lemma RoutineStepOwns(s: State, r: RoutineId, o: Oracle, c: ConnId)
    requires PanicInv(s) && RoundInv(s) && !Orphaned(s, c) && RoutineEnabled(s, r, o)
    requires c in RoutineNext(s, r, o).conns.dialed
    ensures Safe(RoutineNext(s, r, o), c)
  {
    var pc := s.routines[r].pc;
    assert EmptyHanded(s.routines[r]);
    if pc.Verifying? {
      VerifyIsLocal(s, r, o);
      VerifyHands(s, r, o);
      RoutineOwns(s, VerifyNext(s, r, o), r, c);
    } else if pc.Electing? {
      ElectIsLocal(s, r, o);
      ElectHands(s, r, o);
      RoutineOwns(s, ElectNext(s, r, o), r, c);
    } else if pc.Reading? {
      var moved := WriterMoved(s.routines[r], Report(pc));
      ReadIsLocal(s, r, o, moved);
      ReadHands(s, r, o, moved);
      RoutineOwns(s, ReaderNext(s, r, o, moved), r, c);
    } else {
      LeaveIsLocal(s, r);
      LeaveHands(s, r);
      RoutineOwns(s, LeaveNext(s, r), r, c);
    }
  }

  // ---------------------------------------------------------------------------------------------
  // Calls and the environment
  // ---------------------------------------------------------------------------------------------

  lemma CallOwns(s: State, k: CallId, c: ConnId)
    requires k in s.calls && Safe(s, c) && !Orphans(s, CallStep(k), c)
    ensures Safe(CallNext(s, k), c)
  {
    var t := CallNext(s, k);
    if SomeCallHolds(s.calls, c) {
      var j :| j in s.calls && CallHolds(s.calls[j], c);
      assert j != k ==> j in t.calls && CallHolds(t.calls[j], c);
    }
    match s.calls[k] {
      case CallStore(l) =>
        assert l == Some(c) ==> CallHolds(t.calls[k], c);
      case CallUnverify(l) =>
        assert l == Some(c) ==> CallHolds(t.calls[k], c);
      case CallClose(_) =>
      case CallOver =>
    }
  }

  lemma OrphanedThen(s: State, k: CallId, c: ConnId)
    requires k in s.calls && Orphans(s, CallStep(k), c)
    ensures !Safe(CallNext(s, k), c)
  {
    var t := CallNext(s, k);
    assert forall j :: j in t.calls && j != k ==> j in s.calls && t.calls[j] == s.calls[j];
  }

  lemma OtherOwns(s: State, e: Event, c: ConnId)
    requires Enabled(s, e) && !e.MonitorStep? && !e.RoutineStep? && !e.CallStep?
    requires c in s.conns.dialed && Safe(s, c)
    ensures Safe(Next(s, e), c)
  {
    if SomeCallHolds(s.calls, c) {
      var j :| j in s.calls && CallHolds(s.calls[j], c);
      assert j in Next(s, e).calls && CallHolds(Next(s, e).calls[j], c);
    }
  }

  lemma OthersDialNobody(s: State, e: Event)
    requires Enabled(s, e) && !e.MonitorStep? && !e.RoutineStep?
    ensures Next(s, e).conns.dialed == s.conns.dialed
  {
  }

  // ---------------------------------------------------------------------------------------------
  // The shape of a round
  // ---------------------------------------------------------------------------------------------

  lemma HeadRound(s: State)
    requires PanicInv(s) && RoundInv(s) && s.mpc.AtHead?
    ensures RoundInv(HeadNext(s))
  {
    match s.mpc.head {
      case Head =>
      case HeadVerified =>
      case Panic =>
      case StartHosts =>
    }
  }

  lemma OpenRound(s: State, o: Oracle)
    requires RoundInv(s) && s.mpc.Opening?
    ensures RoundInv(OpenNext(s, o))
  {
    match s.mpc.open {
      case OpenLoad =>
      case OpenConnect =>
      case OpenSwap(_) =>
      case OpenCloseExtra(_) =>
      case OpenAsk =>
      case OpenVerified =>
      case OpenWriterHost =>
      case OpenFetch =>
      case OpenQuery(_) =>
      case OpenFailLoad =>
      case OpenFailStore(_) =>
      case OpenFailClose(_) =>
      case OpenFailVerified =>
      case OpenFailHost =>
    }
  }

  lemma SpawnRound(s: State, o: Oracle)
    requires PanicInv(s) && RoundInv(s) && s.mpc.Starting?
    ensures RoundInv(SpawnNext(s, o))
  {
    match s.mpc.spawn {
      case SpawnTest(_) =>
      case Spawning(_) =>
      case GrowTest =>
      case Growing(_) =>
    }
  }

  lemma AdoptRound(s: State)
    requires PanicInv(s) && ElectionInv(s) && RoundInv(s) && s.mpc.Adopting?
    ensures RoundInv(AdoptNext(s))
  {
    match s.mpc.adopt {
      case AdoptHost(_) =>
      case AdoptLoad(_, _) =>
      case AdoptClose(_, _, _) =>
      case AdoptStore(_, _) =>
      case AdoptWriterHost(_) =>
      case AdoptVerified =>
      case AdoptStop =>
      case AdoptWait =>
    }
  }

  lemma CheckRound(s: State, t: State)
    requires RoundInv(s) && s.mpc.Checking? && OnlyChecks(s, t)
    ensures RoundInv(t)
  {
  }

  lemma RegularRound(s: State, o: Oracle)
    requires PanicInv(s) && RoundInv(s) && s.mpc.InRegular?
    ensures RoundInv(RegularNext(s, o))
  {
    match s.mpc.regular {
      case RegularStop =>
      case RegularWait =>
      case RegularFetch =>
      case RegularQuery(_) =>
      case RegularFailLoad =>
      case RegularFailClose(_) =>
      case RegularFailStore =>
      case RegularFailVerified =>
      case RegularFailHost =>
    }
  }

  lemma ResetRound(s: State)
    requires RoundInv(s) && s.mpc.Resetting?
    ensures RoundInv(ResetNext(s))
  {
  }

  lemma MonitorRound(s: State, o: Oracle)
    requires PanicInv(s) && ElectionInv(s) && RoundInv(s) && MonitorEnabled(s, o)
    ensures RoundInv(MonitorNext(s, o))
  {
    if s.mpc.AtHead? { HeadRound(s); }
    else if s.mpc.Opening? { OpenRound(s, o); }
    else if s.mpc.Starting? { SpawnRound(s, o); }
    else if s.mpc.Adopting? { AdoptRound(s); }
    else if s.mpc.Checking? {
      CheckIsLocal(s, o, SameKeys(s.topologies.readerTopologiesById));
      CheckRound(s, MonitorNext(s, o));
    }
    else if s.mpc.InRegular? { RegularRound(s, o); }
    else { ResetRound(s); }
  }

  lemma RoutineRound(s: State, t: State, r: RoutineId)
    requires PanicInv(s) && RoundInv(s) && r in s.routines && !s.routines[r].pc.Done?
    requires OnlyRoutine(s, t, r) && HandsOver(s, t, r) && EmptyHanded(t.routines[r])
    ensures RoundInv(t)
  {
    assert s.hostRoutines != {};
  }

  lemma RoutineStepRound(s: State, r: RoutineId, o: Oracle)
    requires PanicInv(s) && RoundInv(s) && RoutineEnabled(s, r, o)
    ensures RoundInv(RoutineNext(s, r, o))
  {
    var pc := s.routines[r].pc;
    assert EmptyHanded(s.routines[r]);
    if pc.Verifying? {
      VerifyIsLocal(s, r, o);
      VerifyHands(s, r, o);
      RoutineRound(s, VerifyNext(s, r, o), r);
    } else if pc.Electing? {
      ElectIsLocal(s, r, o);
      ElectHands(s, r, o);
      RoutineRound(s, ElectNext(s, r, o), r);
    } else if pc.Reading? {
      var moved := WriterMoved(s.routines[r], Report(pc));
      ReadIsLocal(s, r, o, moved);
      ReadHands(s, r, o, moved);
      RoutineRound(s, ReaderNext(s, r, o, moved), r);
    } else {
      LeaveIsLocal(s, r);
      LeaveHands(s, r);
      RoutineRound(s, LeaveNext(s, r), r);
    }
  }

  lemma OtherRound(s: State, e: Event)
    requires RoundInv(s) && Enabled(s, e) && !e.MonitorStep? && !e.RoutineStep?
    ensures RoundInv(Next(s, e))
  {
  }

  // ---------------------------------------------------------------------------------------------
  // Every step
  // ---------------------------------------------------------------------------------------------

  lemma RoundKept(s: State, e: Event)
    requires PanicInv(s) && ElectionInv(s) && RoundInv(s) && Enabled(s, e)
    ensures RoundInv(Next(s, e))
  {
    match e {
      case MonitorStep(o) => MonitorRound(s, o);
      case RoutineStep(r, o) => RoutineStepRound(s, r, o);
      case _ => OtherRound(s, e);
    }
  }

  lemma StepOwns(s: State, e: Event, c: ConnId)
    requires PanicInv(s) && ElectionInv(s) && RoundInv(s) && Enabled(s, e) && c in Next(s, e).conns.dialed
    requires !Orphaned(s, c) && !Orphans(s, e, c)
    ensures Safe(Next(s, e), c)
  {
    match e {
      case MonitorStep(o) => MonitorOwns(s, o, c);
      case RoutineStep(r, o) => RoutineStepOwns(s, r, o, c);
      case CallStep(k) =>
        OthersDialNobody(s, e);
        CallOwns(s, k, c);
      case _ =>
        OthersDialNobody(s, e);
        OtherOwns(s, e, c);
    }
  }

  /** When all routines have ended, a connection that is not orphaned is closed, or it is the monitoring connection, the
      elected one that waits to be taken over, one the monitor is about to store or close, or one a refresh call has
      looked at. */
  lemma WhoHasIt(s: State, c: ConnId)
    requires RoundInv(s) && AllDone(s) && c in s.conns.dialed && !Orphaned(s, c)
    ensures c in s.conns.closed || s.link.monitoringConn == Some(c)
         || (!s.race.adopted && s.race.hostRoutinesWriterConn == Some(c))
         || MonitorHolds(s.mpc, c) || SomeCallHolds(s.calls, c)
  {
    assert forall r :: r in s.routines ==> EmptyHanded(s.routines[r]);
  }
}
