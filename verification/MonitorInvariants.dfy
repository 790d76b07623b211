/** What every step of the topology monitor keeps. */
module MonitorInvariants {
  import opened Strings
  import opened Topology
  import opened TopologyKey
  import opened TopologyMonitor

  // ---------------------------------------------------------------------------------------------
  // What kinds of steps leave alone
  // ---------------------------------------------------------------------------------------------

  /** A step of one routine touches that routine and no control state of anyone else. */
  predicate OnlyRoutine(s: State, t: State, r: RoutineId) {
    && r in t.routines && t.routines == s.routines[r := t.routines[r]]
    && t.mpc == s.mpc && t.hostRoutines == s.hostRoutines && t.calls == s.calls && t.link == s.link
  }

  lemma VerifyIsLocal(s: State, r: RoutineId, o: Oracle)
    requires r in s.routines && s.routines[r].pc.Verifying?
    ensures OnlyRoutine(s, VerifyNext(s, r, o), r)
  {
    match s.routines[r].pc.verify {
      case Top =>
      case Connecting =>
      case AskWriter =>
      case CloseFailed =>
      case AskRole =>
    }
  }

  lemma ElectIsLocal(s: State, r: RoutineId, o: Oracle)
    requires r in s.routines && s.routines[r].pc.Electing?
    ensures OnlyRoutine(s, ElectNext(s, r, o), r)
  {
    match s.routines[r].pc.elect {
      case Elect =>
      case CloseLoser =>
      case Publish =>
      case Announce =>
      case SignalStop =>
    }
  }

  lemma ReadIsLocal(s: State, r: RoutineId, o: Oracle, moved: bool)
    requires r in s.routines && s.routines[r].pc.Reading?
    ensures OnlyRoutine(s, ReaderNext(s, r, o, moved), r)
  {
    match s.routines[r].pc.read {
      case ReaderBranch =>
      case TryReader =>
      case Fetch =>
      case ShareLatest(_) =>
      case ShareReport(_) =>
      case StoreReport(_) =>
    }
  }

  lemma LeaveIsLocal(s: State, r: RoutineId)
    requires r in s.routines && s.routines[r].pc.Leaving?
    ensures OnlyRoutine(s, LeaveNext(s, r), r)
  {
    match s.routines[r].pc.leave {
      case MarkCycle(_, _) =>
      case DropReport(_) =>
      case CloseOnLeave =>
    }
  }

  lemma RoutineIsLocal(s: State, r: RoutineId, o: Oracle)
    requires RoutineEnabled(s, r, o)
    ensures OnlyRoutine(s, RoutineNext(s, r, o), r)
  {
    var pc := s.routines[r].pc;
    if pc.Verifying? { VerifyIsLocal(s, r, o); }
    else if pc.Electing? { ElectIsLocal(s, r, o); }
    else if pc.Reading? { ReadIsLocal(s, r, o, WriterMoved(s.routines[r], Report(pc))); }
    else { LeaveIsLocal(s, r); }
  }

  /** A step of the stable-reader rule touches the rule's own state and the topologies. */
  predicate OnlyChecks(s: State, t: State) {
    && t.link == s.link && t.race == s.race && t.conns == s.conns && t.hostRoutines == s.hostRoutines
    && t.routines == s.routines && t.calls == s.calls
    && (t.mpc == AtHead(Head) || t.mpc.Checking?)
  }

  lemma CheckIsLocal(s: State, o: Oracle, agree: bool)
    requires s.mpc.Checking? && PicksReport(s, o)
    ensures OnlyChecks(s, CheckNext(s, o, agree))
  {
    match s.mpc.check {
      case CheckStored =>
      case CheckCycles(_, _) =>
      case CheckReports(_, _) =>
      case CheckStore(_) =>
    }
  }

  // ---------------------------------------------------------------------------------------------
  // Host routines exist only in panic mode
  // ---------------------------------------------------------------------------------------------

  /** While the monitor is looking for its first topology of a round, no routine has been started. */
  predicate IsStarting(pc: MonitorPc) {
    pc == AtHead(StartHosts) || pc.Opening? || (pc.Starting? && pc.spawn.SpawnTest?)
  }

  predicate IsGrowing(pc: MonitorPc) {
    pc.Starting? && (pc.spawn.GrowTest? || pc.spawn.Growing?)
  }

  ghost predicate PanicInv(s: State) {
    && (s.hostRoutines == {} ==> AllDone(s))
    && (s.hostRoutines != {} && s.link.isVerifiedWriterConn ==>
          s.mpc == Adopting(AdoptStop) || s.mpc == Adopting(AdoptWait))
    && (IsStarting(s.mpc) || s.mpc.InRegular? ==> s.hostRoutines == {})
    && (IsGrowing(s.mpc) || s.mpc.Adopting? ==> s.hostRoutines != {})
    && (s.mpc.Starting? && s.mpc.spawn.Spawning? ==> !s.link.isVerifiedWriterConn)
    && s.mpc != InRegular(RegularStop) && s.mpc != InRegular(RegularWait)
  }

  lemma PanicHead(s: State)
    requires PanicInv(s) && s.mpc.AtHead?
    ensures PanicInv(HeadNext(s))
  {
  }

  lemma PanicOpen(s: State, o: Oracle)
    requires PanicInv(s) && s.mpc.Opening?
    ensures PanicInv(OpenNext(s, o))
  {
    match s.mpc.open {
      case OpenLoad =>
      case OpenConnect =>
      case OpenSwap(_) =>
      case OpenCloseExtra(_) =>
      case OpenAsk =>
      case OpenVerified =>
      case OpenWriterHost =>
      case OpenFetch =>
      case OpenQuery(_) =>
      case OpenFailLoad =>
      case OpenFailStore(_) =>
      case OpenFailClose(_) =>
      case OpenFailVerified =>
      case OpenFailHost =>
    }
  }

  lemma PanicSpawn(s: State, o: Oracle)
    requires PanicInv(s) && s.mpc.Starting?
    ensures PanicInv(SpawnNext(s, o))
  {
  }

  lemma PanicAdopt(s: State)
    requires PanicInv(s) && s.mpc.Adopting? && (s.mpc == Adopting(AdoptWait) ==> AllDone(s))
    ensures PanicInv(AdoptNext(s))
  {
  }

  lemma PanicCheck(s: State, t: State)
    requires PanicInv(s) && s.mpc.Checking? && OnlyChecks(s, t)
    ensures PanicInv(t)
  {
  }

  lemma PanicRegular(s: State, o: Oracle)
    requires PanicInv(s) && s.mpc.InRegular?
    ensures PanicInv(RegularNext(s, o))
  {
  }

  lemma PanicMonitor(s: State, o: Oracle)
    requires PanicInv(s) && MonitorEnabled(s, o)
    ensures PanicInv(MonitorNext(s, o))
  {
    if s.mpc.AtHead? { PanicHead(s); }
    else if s.mpc.Opening? { PanicOpen(s, o); }
    else if s.mpc.Starting? { PanicSpawn(s, o); }
    else if s.mpc.Adopting? { PanicAdopt(s); }
    else if s.mpc.Checking? { 
      CheckIsLocal(s, o, SameKeys(s.topologies.readerTopologiesById));
      PanicCheck(s, CheckNext(s, o, SameKeys(s.topologies.readerTopologiesById)));
     }
    else if s.mpc.InRegular? { PanicRegular(s, o); }
  }

  lemma PanicRoutine(s: State, t: State, r: RoutineId)
    requires PanicInv(s) && OnlyRoutine(s, t, r) && r in s.routines && !s.routines[r].pc.Done?
    ensures PanicInv(t)
  {
  }

  lemma PanicOther(s: State, e: Event)
    requires PanicInv(s) && Enabled(s, e) && !e.MonitorStep? && !e.RoutineStep?
    ensures PanicInv(Next(s, e))
  {
  }

  lemma PanicKept(s: State, e: Event)
    requires PanicInv(s) && Enabled(s, e)
    ensures PanicInv(Next(s, e))
  {
    match e {
      case MonitorStep(o) => PanicMonitor(s, o);
      case RoutineStep(r, o) =>
        RoutineIsLocal(s, r, o);
        PanicRoutine(s, RoutineNext(s, r, o), r);
      case _ => PanicOther(s, e);
    }
  }

  // ---------------------------------------------------------------------------------------------
  // Writer election
  // ---------------------------------------------------------------------------------------------

  /** The winner of the current round holds connection `c`. */
  predicate Winner(race: Race, c: ConnId) {
    race.lastWin.Some? && race.lastWin.value.round == race.round && race.lastWin.value.conn == c
  }

  predicate NeedsConn(pc: RoutinePc) {
    pc == Verifying(AskWriter) || pc == Verifying(AskRole) || pc == Electing(Elect)
  }

  /** A routine's connection goes to its own host; it enters the race only after both tests; and a routine that
      announces is the winner. */
  predicate SoundRoutine(h: Routine, race: Race, conns: Conns) {
    && (h.conn.Some? ==> h.conn.value in conns.dialed && conns.dialed[h.conn.value] == h.hostInfo.host)
    && (NeedsConn(h.pc) ==> h.conn.Some?)
    && (h.pc == Verifying(AskRole) || h.pc == Electing(Elect) ==> h.conn.value in conns.writerAnswered)
    && (h.pc == Electing(Elect) ==> h.conn.value in conns.roleChecked)
    && (h.pc == Electing(Publish) || h.pc == Electing(Announce) ==>
          && race.hostRoutinesWriterConn.Some? && Winner(race, race.hostRoutinesWriterConn.value)
          && race.lastWin.value.host == h.hostInfo)
  }

  /** A win is sound: the winner's connection was dialed to the winner's host, and passed both writer tests. */
  predicate SoundWin(w: Win, race: Race, conns: Conns) {
    && w.conn in conns.writerAnswered && w.conn in conns.roleChecked
    && w.conn in conns.dialed && conns.dialed[w.conn] == w.host.host
    && w.round <= race.round
  }

  /** The wins of a run: sound, and at most one a round. */
  predicate SoundWins(race: Race, conns: Conns) {
    && (forall i, j :: 0 <= i < j < |race.wins| ==> race.wins[i].round < race.wins[j].round)
    && (forall i :: 0 <= i < |race.wins| ==> SoundWin(race.wins[i], race, conns))
    && race.lastWin == (if race.wins == [] then None else Some(race.wins[|race.wins| - 1]))
  }

  /** What was adopted is what one winner brought in the same round. */
  ghost predicate FromWinner(a: Adoption, race: Race) {
    exists w :: w in race.wins && w.round == a.round && w.conn == a.conn
                && a.host == w.host.(availability := Available)
  }

  ghost predicate SoundRace(race: Race) {
    && (race.hostRoutinesWriterConn.Some? ==> Winner(race, race.hostRoutinesWriterConn.value))
    && (race.hostRoutinesWriterConn == None && race.lastWin.Some? ==> race.lastWin.value.round < race.round)
    && (race.hostRoutinesWriterHostInfo.Some? ==>
          && race.hostRoutinesWriterConn.Some?
          && race.hostRoutinesWriterHostInfo.value == race.lastWin.value.host.(availability := Available))
    && (forall i :: 0 <= i < |race.adoptions| ==> FromWinner(race.adoptions[i], race))
  }

  predicate IsElected(race: Race, c: ConnId, h: HostInfo) {
    race.hostRoutinesWriterConn == Some(c) && race.hostRoutinesWriterHostInfo == Some(h)
  }

  /** What the monitor has in its hands while adopting is what the round's winner announced. */
  predicate AdoptingWinner(pc: AdoptPc, race: Race) {
    match pc
    case AdoptHost(seen) => seen.Some? ==> race.hostRoutinesWriterConn == seen
    case AdoptLoad(c, h) => IsElected(race, c, h)
    case AdoptClose(c, h, _) => IsElected(race, c, h)
    case AdoptStore(c, h) => IsElected(race, c, h)
    case AdoptWriterHost(h) => race.hostRoutinesWriterHostInfo == Some(h)
    case _ => true
  }

  ghost predicate ElectionInv(s: State) {
    && (forall r :: r in s.routines ==> SoundRoutine(s.routines[r], s.race, s.conns))
    && SoundWins(s.race, s.conns)
    && SoundRace(s.race)
    && (s.mpc.Adopting? ==> AdoptingWinner(s.mpc.adopt, s.race))
  }

  /** Connections are only added and checked, never renamed. */
  ghost predicate Grows(a: Conns, b: Conns) {
    && a.writerAnswered <= b.writerAnswered && a.roleChecked <= b.roleChecked && a.closed <= b.closed
    && forall c :: c in a.dialed ==> c in b.dialed && b.dialed[c] == a.dialed[c]
  }

  /** The election survives a step that leaves the race alone and touches at most routine `r`. */
  lemma ElectionFrame(s: State, t: State, r: RoutineId)
    requires ElectionInv(s) && t.race == s.race && Grows(s.conns, t.conns)
    requires forall q :: q in t.routines && q != r ==> q in s.routines && t.routines[q] == s.routines[q]
    requires r in t.routines ==> SoundRoutine(t.routines[r], t.race, t.conns)
    requires t.mpc.Adopting? ==> AdoptingWinner(t.mpc.adopt, t.race)
    ensures ElectionInv(t)
  {
    forall q | q in t.routines && q != r ensures SoundRoutine(t.routines[q], t.race, t.conns) {
      assert SoundRoutine(s.routines[q], s.race, s.conns);
    }
    forall i | 0 <= i < |t.race.wins| ensures SoundWin(t.race.wins[i], t.race, t.conns) {
      assert SoundWin(s.race.wins[i], s.race, s.conns);
    }
  }

  /** The same for a step that touches no routine. */
  lemma ElectionFrameAll(s: State, t: State)
    requires ElectionInv(s) && t.race == s.race && Grows(s.conns, t.conns) && t.routines == s.routines
    requires t.mpc.Adopting? ==> AdoptingWinner(t.mpc.adopt, t.race)
    ensures ElectionInv(t)
  {
    forall q | q in t.routines ensures SoundRoutine(t.routines[q], t.race, t.conns) {
      assert SoundRoutine(s.routines[q], s.race, s.conns);
    }
    forall i | 0 <= i < |t.race.wins| ensures SoundWin(t.race.wins[i], t.race, t.conns) {
      assert SoundWin(s.race.wins[i], s.race, s.conns);
    }
  }

  lemma AdoptionsStay(a: Race, b: Race)
    requires a.adoptions <= b.adoptions && a.wins <= b.wins
    requires forall i :: 0 <= i < |a.adoptions| ==> FromWinner(a.adoptions[i], a)
    ensures forall i :: 0 <= i < |a.adoptions| ==> FromWinner(b.adoptions[i], b)
  {
    forall i | 0 <= i < |a.adoptions| ensures FromWinner(b.adoptions[i], b) {
      assert FromWinner(a.adoptions[i], a);
      var w :| w in a.wins && w.round == a.adoptions[i].round && w.conn == a.adoptions[i].conn
               && a.adoptions[i].host == w.host.(availability := Available);
      assert w in b.wins;
    }
  }

  // Steps of the monitor.

  /** A monitor step outside the race. */
  ghost predicate OutsideRace(s: State, t: State) {
    t.race == s.race && t.routines == s.routines && Grows(s.conns, t.conns)
  }

  lemma HeadOutsideRace(s: State)
    requires s.mpc.AtHead? && s.mpc.head != Panic
    ensures OutsideRace(s, HeadNext(s)) && !HeadNext(s).mpc.Adopting?
  {
  }

  lemma OpenOutsideRace(s: State, o: Oracle)
    requires s.mpc.Opening? && (o.dial.Connected? ==> o.dial.conn !in s.conns.dialed)
    ensures OutsideRace(s, OpenNext(s, o)) && !OpenNext(s, o).mpc.Adopting?
  {
    match s.mpc.open {
      case OpenLoad =>
      case OpenConnect =>
      case OpenSwap(_) =>
      case OpenCloseExtra(_) =>
      case OpenAsk =>
      case OpenVerified =>
      case OpenWriterHost =>
      case OpenFetch =>
      case OpenQuery(_) =>
      case OpenFailLoad =>
      case OpenFailStore(_) =>
      case OpenFailClose(_) =>
      case OpenFailVerified =>
      case OpenFailHost =>
    }
  }

  lemma RegularOutsideRace(s: State, o: Oracle)
    requires s.mpc.InRegular?
    ensures OutsideRace(s, RegularNext(s, o)) && !RegularNext(s, o).mpc.Adopting?
  {
  }

  lemma AdoptOutsideRace(s: State)
    requires s.mpc.Adopting? && !s.mpc.adopt.AdoptStore?
    ensures OutsideRace(s, AdoptNext(s))
  {
  }

  lemma AdoptKeepsWinner(s: State)
    requires s.mpc.Adopting? && AdoptingWinner(s.mpc.adopt, s.race)
    ensures AdoptNext(s).mpc.Adopting? ==> AdoptingWinner(AdoptNext(s).mpc.adopt, s.race)
  {
  }

  /** A monitor step that starts at most one routine. */
  ghost predicate StartsAtMost(s: State, t: State, id: RoutineId) {
    t.routines == s.routines || exists h :: t.routines == s.routines[id := NewRoutine(s, h)]
  }

  lemma SpawnStarts(s: State, o: Oracle)
    requires s.mpc.Starting?
    ensures StartsAtMost(s, SpawnNext(s, o), o.routine)
    ensures SpawnNext(s, o).race == s.race && SpawnNext(s, o).conns == s.conns
    ensures !SpawnNext(s, o).mpc.Adopting?
  {
  }

  lemma ElectionSpawn(s: State, t: State, id: RoutineId)
    requires ElectionInv(s) && t.race == s.race && t.conns == s.conns && !t.mpc.Adopting?
    requires StartsAtMost(s, t, id)
    ensures ElectionInv(t)
  {
    if t.routines == s.routines {
      ElectionFrameAll(s, t);
    } else {
      ElectionFrame(s, t, id);
    }
  }

  /** Every round begins with an empty race. */
  lemma ElectionNewRound(s: State, t: State)
    requires ElectionInv(s) && AllDone(s) && t.routines == s.routines && Grows(s.conns, t.conns)
    requires !t.mpc.Adopting?
    requires t.race == s.race.(hostRoutinesWriterConn := None, hostRoutinesWriterHostInfo := None,
                               round := s.race.round + 1, adopted := t.race.adopted)
    ensures ElectionInv(t)
  {
    forall q | q in t.routines ensures SoundRoutine(t.routines[q], t.race, t.conns) {
      assert SoundRoutine(s.routines[q], s.race, s.conns);
    }
    forall i | 0 <= i < |t.race.wins| ensures SoundWin(t.race.wins[i], t.race, t.conns) {
      assert SoundWin(s.race.wins[i], s.race, s.conns);
    }
    AdoptionsStay(s.race, t.race);
  }

  lemma PanicStartsRound(s: State)
    requires s.mpc == AtHead(Panic) && s.hostRoutines == {}
    ensures HeadNext(s).routines == s.routines && HeadNext(s).conns == s.conns && !HeadNext(s).mpc.Adopting?
    ensures HeadNext(s).race == s.race.(hostRoutinesWriterConn := None, hostRoutinesWriterHostInfo := None,
                                        round := s.race.round + 1, adopted := false)
  {
  }

  lemma ResetStartsRound(s: State)
    requires s.mpc == Resetting
    ensures ResetNext(s).routines == s.routines && Grows(s.conns, ResetNext(s).conns)
    ensures !ResetNext(s).mpc.Adopting?
    ensures ResetNext(s).race == s.race.(hostRoutinesWriterConn := None, hostRoutinesWriterHostInfo := None,
                                         round := s.race.round + 1, adopted := true)
  {
  }

  lemma ElectionPanic(s: State)
    requires ElectionInv(s) && PanicInv(s) && s.mpc == AtHead(Panic)
    ensures ElectionInv(HeadNext(s))
  {
    if s.hostRoutines == {} {
      PanicStartsRound(s);
      ElectionNewRound(s, HeadNext(s));
    } else {
      ElectionFrameAll(s, HeadNext(s));
    }
  }

  lemma ElectionAdopts(s: State)
    requires ElectionInv(s) && s.mpc.Adopting? && s.mpc.adopt.AdoptStore?
    ensures ElectionInv(AdoptNext(s))
  {
    var t := AdoptNext(s);
    assert s.race.lastWin.value in t.race.wins;
    AdoptionsStay(s.race, t.race);
    forall q | q in t.routines ensures SoundRoutine(t.routines[q], t.race, t.conns) {
      assert SoundRoutine(s.routines[q], s.race, s.conns);
    }
    forall i | 0 <= i < |t.race.wins| ensures SoundWin(t.race.wins[i], t.race, t.conns) {
      assert SoundWin(s.race.wins[i], s.race, s.conns);
    }
  }

  lemma ElectionMonitor(s: State, o: Oracle)
    requires ElectionInv(s) && PanicInv(s) && MonitorEnabled(s, o)
    ensures ElectionInv(MonitorNext(s, o))
  {
    var t := MonitorNext(s, o);
    if s.mpc == AtHead(Panic) {
      ElectionPanic(s);
    } else if s.mpc.Starting? {
      SpawnStarts(s, o);
      ElectionSpawn(s, t, o.routine);
    } else if s.mpc == Resetting {
      ResetStartsRound(s);
      ElectionNewRound(s, t);
    } else if s.mpc.Adopting? && s.mpc.adopt.AdoptStore? {
      ElectionAdopts(s);
    } else {
      if s.mpc.AtHead? { HeadOutsideRace(s); }
      else if s.mpc.Opening? { OpenOutsideRace(s, o); }
      else if s.mpc.Checking? { CheckIsLocal(s, o, SameKeys(s.topologies.readerTopologiesById)); }
      else if s.mpc.InRegular? { RegularOutsideRace(s, o); }
      else {
        AdoptOutsideRace(s);
        AdoptKeepsWinner(s);
      }
      ElectionFrameAll(s, t);
    }
  }

  // Steps of a routine.

  /** A routine step that neither wins nor announces. */
  predicate IsQuiet(pc: RoutinePc) {
    pc != Electing(Elect) && pc != Electing(Announce)
  }

  lemma VerifyGrows(s: State, r: RoutineId, o: Oracle)
    requires r in s.routines && s.routines[r].pc.Verifying?
    requires o.dial.Connected? ==> o.dial.conn !in s.conns.dialed
    ensures VerifyNext(s, r, o).race == s.race && Grows(s.conns, VerifyNext(s, r, o).conns)
  {
    match s.routines[r].pc.verify {
      case Top =>
      case Connecting =>
      case AskWriter =>
      case CloseFailed =>
      case AskRole =>
    }
  }

  lemma ConnectQuiet(s: State, r: RoutineId, o: Oracle)
    requires r in s.routines && s.routines[r].pc == Verifying(Connecting)
    requires SoundRoutine(s.routines[r], s.race, s.conns)
    ensures SoundRoutine(VerifyNext(s, r, o).routines[r], s.race, VerifyNext(s, r, o).conns)
  {
    match o.dial {
      case Connected(_) =>
      case NothingReturned =>
      case LoginError =>
      case _ =>
    }
  }

  lemma AskQuiet(s: State, r: RoutineId, o: Oracle)
    requires r in s.routines && s.routines[r].pc == Verifying(AskWriter)
    requires SoundRoutine(s.routines[r], s.race, s.conns)
    ensures SoundRoutine(VerifyNext(s, r, o).routines[r], s.race, VerifyNext(s, r, o).conns)
  {
    match o.answer {
      case Yes =>
      case No =>
      case Failed =>
    }
  }

  lemma TopQuiet(s: State, r: RoutineId, o: Oracle)
    requires r in s.routines && s.routines[r].pc == Verifying(Top)
    requires SoundRoutine(s.routines[r], s.race, s.conns)
    ensures SoundRoutine(VerifyNext(s, r, o).routines[r], s.race, VerifyNext(s, r, o).conns)
  {
  }

  lemma CloseFailedQuiet(s: State, r: RoutineId, o: Oracle)
    requires r in s.routines && s.routines[r].pc == Verifying(CloseFailed)
    requires SoundRoutine(s.routines[r], s.race, s.conns)
    ensures SoundRoutine(VerifyNext(s, r, o).routines[r], s.race, VerifyNext(s, r, o).conns)
  {
  }

  lemma AskRoleQuiet(s: State, r: RoutineId, o: Oracle)
    requires r in s.routines && s.routines[r].pc == Verifying(AskRole)
    requires SoundRoutine(s.routines[r], s.race, s.conns)
    ensures SoundRoutine(VerifyNext(s, r, o).routines[r], s.race, VerifyNext(s, r, o).conns)
  {
  }

  lemma VerifyQuiet(s: State, r: RoutineId, o: Oracle)
    requires r in s.routines && s.routines[r].pc.Verifying? && SoundRoutine(s.routines[r], s.race, s.conns)
    ensures SoundRoutine(VerifyNext(s, r, o).routines[r], s.race, VerifyNext(s, r, o).conns)
  {
    var pc := s.routines[r].pc.verify;
    if pc.Connecting? { ConnectQuiet(s, r, o); }
    else if pc.AskWriter? { AskQuiet(s, r, o); }
    else if pc.Top? { TopQuiet(s, r, o); }
    else if pc.CloseFailed? { CloseFailedQuiet(s, r, o); }
    else { AskRoleQuiet(s, r, o); }
  }

  lemma ElectQuiet(s: State, r: RoutineId, o: Oracle)
    requires r in s.routines && s.routines[r].pc.Electing? && SoundRoutine(s.routines[r], s.race, s.conns)
    requires IsQuiet(s.routines[r].pc)
    ensures ElectNext(s, r, o).race == s.race && Grows(s.conns, ElectNext(s, r, o).conns)
    ensures SoundRoutine(ElectNext(s, r, o).routines[r], s.race, ElectNext(s, r, o).conns)
  {
    match s.routines[r].pc.elect {
      case Elect =>
      case CloseLoser =>
      case Publish =>
      case Announce =>
      case SignalStop =>
    }
  }

  lemma ReadQuiet(s: State, r: RoutineId, o: Oracle, moved: bool)
    requires r in s.routines && s.routines[r].pc.Reading? && SoundRoutine(s.routines[r], s.race, s.conns)
    ensures ReaderNext(s, r, o, moved).race == s.race && ReaderNext(s, r, o, moved).conns == s.conns
    ensures SoundRoutine(ReaderNext(s, r, o, moved).routines[r], s.race, s.conns)
  {
    match s.routines[r].pc.read {
      case ReaderBranch =>
      case TryReader =>
      case Fetch =>
      case ShareLatest(_) =>
      case ShareReport(_) =>
      case StoreReport(_) =>
    }
  }

  lemma LeaveQuiet(s: State, r: RoutineId)
    requires r in s.routines && s.routines[r].pc.Leaving? && SoundRoutine(s.routines[r], s.race, s.conns)
    ensures LeaveNext(s, r).race == s.race && Grows(s.conns, LeaveNext(s, r).conns)
    ensures SoundRoutine(LeaveNext(s, r).routines[r], s.race, LeaveNext(s, r).conns)
  {
    match s.routines[r].pc.leave {
      case MarkCycle(_, _) =>
      case DropReport(_) =>
      case CloseOnLeave =>
    }
  }

  /** What a quiet step leaves behind. */
  ghost predicate StaysQuiet(s: State, t: State, r: RoutineId) {
    t.race == s.race && Grows(s.conns, t.conns) && r in t.routines && SoundRoutine(t.routines[r], t.race, t.conns)
  }

  lemma RoutineQuiet(s: State, r: RoutineId, o: Oracle)
    requires RoutineEnabled(s, r, o) && SoundRoutine(s.routines[r], s.race, s.conns)
    requires IsQuiet(s.routines[r].pc)
    ensures StaysQuiet(s, RoutineNext(s, r, o), r)
  {
    var pc, t := s.routines[r].pc, RoutineNext(s, r, o);
    if pc.Verifying? {
      VerifyGrows(s, r, o);
      VerifyQuiet(s, r, o);
      VerifyIsLocal(s, r, o);
      assert t == VerifyNext(s, r, o);
    } else if pc.Electing? {
      ElectQuiet(s, r, o);
      ElectIsLocal(s, r, o);
      assert t == ElectNext(s, r, o);
    } else if pc.Reading? {
      var moved := WriterMoved(s.routines[r], Report(pc));
      ReadQuiet(s, r, o, moved);
      ReadIsLocal(s, r, o, moved);
      assert t == ReaderNext(s, r, o, moved);
    } else {
      LeaveQuiet(s, r);
      LeaveIsLocal(s, r);
      assert t == LeaveNext(s, r);
    }
  }

  /** Winning: only into an empty slot, hence only once a round. */
  lemma ElectionElect(s: State, r: RoutineId, o: Oracle)
    requires ElectionInv(s) && r in s.routines && s.routines[r].pc == Electing(Elect)
    ensures ElectionInv(ElectNext(s, r, o))
  {
    var t := ElectNext(s, r, o);
    assert SoundRoutine(s.routines[r], s.race, s.conns);
    if s.race.hostRoutinesWriterConn == None {
      forall q | q in t.routines ensures SoundRoutine(t.routines[q], t.race, t.conns) {
        assert q != r ==> SoundRoutine(s.routines[q], s.race, s.conns);
      }
      forall i | 0 <= i < |t.race.wins| ensures SoundWin(t.race.wins[i], t.race, t.conns) {
        assert i < |s.race.wins| ==> SoundWin(s.race.wins[i], s.race, s.conns);
      }
      AdoptionsStay(s.race, t.race);
    } else {
      ElectionFrame(s, t, r);
    }
  }

  lemma ElectionAnnounce(s: State, r: RoutineId, o: Oracle)
    requires ElectionInv(s) && r in s.routines && s.routines[r].pc == Electing(Announce)
    ensures ElectionInv(ElectNext(s, r, o))
  {
    var t := ElectNext(s, r, o);
    assert SoundRoutine(s.routines[r], s.race, s.conns);
    forall q | q in t.routines ensures SoundRoutine(t.routines[q], t.race, t.conns) {
      assert q != r ==> SoundRoutine(s.routines[q], s.race, s.conns);
    }
    forall i | 0 <= i < |t.race.wins| ensures SoundWin(t.race.wins[i], t.race, t.conns) {
      assert SoundWin(s.race.wins[i], s.race, s.conns);
    }
    AdoptionsStay(s.race, t.race);
  }

  lemma ElectionRoutine(s: State, r: RoutineId, o: Oracle)
    requires ElectionInv(s) && RoutineEnabled(s, r, o)
    ensures ElectionInv(RoutineNext(s, r, o))
  {
    var pc := s.routines[r].pc;
    if pc == Electing(Elect) { ElectionElect(s, r, o); }
    else if pc == Electing(Announce) { ElectionAnnounce(s, r, o); }
    else {
      RoutineIsLocal(s, r, o);
      RoutineQuiet(s, r, o);
      ElectionFrame(s, RoutineNext(s, r, o), r);
    }
  }

  lemma OtherOutsideRace(s: State, e: Event)
    requires Enabled(s, e) && !e.MonitorStep? && !e.RoutineStep?
    ensures OutsideRace(s, Next(s, e))
    ensures !Next(s, e).mpc.Adopting? || Next(s, e).mpc == s.mpc
  {
  }

  lemma ElectionKept(s: State, e: Event)
    requires ElectionInv(s) && PanicInv(s) && Enabled(s, e)
    ensures ElectionInv(Next(s, e))
  {
    match e {
      case MonitorStep(o) => ElectionMonitor(s, o);
      case RoutineStep(r, o) => ElectionRoutine(s, r, o);
      case _ =>
        OtherOutsideRace(s, e);
        ElectionFrameAll(s, Next(s, e));
    }
  }
}
