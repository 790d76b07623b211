/** Which connections the topology monitor loses, and why for good. */
module MonitorLeaks {
  import opened Strings
  import opened Topology
  import opened TopologyMonitor
  import opened MonitorInvariants
  import opened MonitorOwnership
  import opened MonitorExclusive

  /** The atomics of a round still hold the connection; a reset closes what they hold, a new round just clears them. */
  predicate AtomicsHold(s: State, c: ConnId) {
    s.race.hostRoutinesWriterConn == Some(c) || s.hostRoutinesReaderConn == Some(c)
  }

  /** An open connection nobody will ever close. */
  ghost predicate Leaked(s: State, c: ConnId) {
    Orphaned(s, c) && !AtomicsHold(s, c)
  }

  predicate IsReset(s: State, e: Event) {
    e.MonitorStep? && s.mpc.Resetting?
  }

  predicate StartsRound(s: State, e: Event) {
    e.MonitorStep? && s.mpc == AtHead(Panic) && s.hostRoutines == {}
  }

  // ---------------------------------------------------------------------------------------------
  // What is in `monitoringConn`
  // ---------------------------------------------------------------------------------------------

  /** The monitor has closed the monitoring connection and is about to overwrite it. */
  predicate Replacing(pc: MonitorPc) {
    (pc.Adopting? && pc.adopt.AdoptStore?) || (pc.InRegular? && pc.regular.RegularFailStore?)
  }

  predicate TookOut(pc: CallPc, c: ConnId) {
    pc == CallUnverify(Some(c)) || pc == CallClose(Some(c))
  }

  /** The connection the monitor has just opened. */
  function NewConn(pc: MonitorPc): Option<ConnId> {
    if pc.Opening? && pc.open.OpenSwap? then Some(pc.open.conn)
    else if pc.Opening? && pc.open.OpenCloseExtra? then Some(pc.open.conn)
    else None
  }

  predicate OpenSlot(link: Link, closed: set<ConnId>, pc: MonitorPc) {
    link.monitoringConn.Some? && link.monitoringConn.value in closed ==> Replacing(pc)
  }

  ghost predicate NotTakenOut(link: Link, calls: map<CallId, CallPc>) {
    link.monitoringConn.Some? ==> forall k :: k in calls ==> !TookOut(calls[k], link.monitoringConn.value)
  }

  ghost predicate NobodysYet(s: State, c: ConnId) {
    c !in s.conns.closed && s.link.monitoringConn != Some(c) && !SomeCallHolds(s.calls, c)
  }

  /** The monitoring connection is open, unless it is about to be overwritten; a refresh call that took a connection out
      does not find it there again; and a new connection is nobody's before it is stored. */
  ghost predicate SlotInv(s: State) {
    && OpenSlot(s.link, s.conns.closed, s.mpc)
    && NotTakenOut(s.link, s.calls)
    && (NewConn(s.mpc).Some? ==> NobodysYet(s, NewConn(s.mpc).value))
    && (s.mpc.Opening? && s.mpc.open.OpenFailClose? && s.mpc.open.loaded.Some? ==> s.link.monitoringConn != s.mpc.open.loaded)
  }

  /** A step that leaves the connections alone, except that it may empty `monitoringConn`. */
  lemma SlotFrame(s: State, t: State)
    requires SlotInv(s) && t.conns.closed == s.conns.closed && t.calls == s.calls
    requires t.link.monitoringConn == None || (t.link.monitoringConn == s.link.monitoringConn && !Replacing(s.mpc))
    requires NewConn(t.mpc) == None || NewConn(t.mpc) == NewConn(s.mpc)
    requires t.mpc.Opening? && t.mpc.open.OpenFailClose? ==> t.link.monitoringConn == None
    ensures SlotInv(t)
  {
  }

  lemma OpenSlotKept(s: State, o: Oracle)
    requires SlotInv(s) && ExclusiveInv(s) && s.mpc.Opening? && (o.dial.Connected? ==> o.dial.conn !in s.conns.dialed)
    ensures SlotInv(OpenNext(s, o))
  {
    var t := OpenNext(s, o);
    match s.mpc.open {
      case OpenConnect => NewIsNobodys(s, t, o);
      case OpenSwap(_) =>
      case OpenCloseExtra(_) =>
      case OpenFailClose(_) =>
      case OpenFailStore(_) => SlotFrame(s, t);
      case OpenLoad => SlotFrame(s, t);
      case OpenAsk => SlotFrame(s, t);
      case OpenVerified => SlotFrame(s, t);
      case OpenWriterHost => SlotFrame(s, t);
      case OpenFetch => SlotFrame(s, t);
      case OpenQuery(_) => SlotFrame(s, t);
      case OpenFailLoad => SlotFrame(s, t);
      case OpenFailVerified => SlotFrame(s, t);
      case OpenFailHost => SlotFrame(s, t);
    }
  }

  lemma NewIsNobodys(s: State, t: State, o: Oracle)
    requires SlotInv(s) && ExclusiveInv(s) && s.mpc == Opening(OpenConnect) && t == OpenNext(s, o)
    requires o.dial.Connected? ==> o.dial.conn !in s.conns.dialed
    ensures SlotInv(t)
  {
    if o.dial.Connected? {
      assert !Public(s, o.dial.conn);
    }
  }

  lemma AdoptSlotKept(s: State)
    requires SlotInv(s) && ExclusiveInv(s) && ElectionInv(s) && PanicInv(s) && RoundInv(s) && s.mpc.Adopting?
    ensures SlotInv(AdoptNext(s))
  {
    var t := AdoptNext(s);
    match s.mpc.adopt {
      case AdoptClose(_, _, _) =>
      case AdoptStore(writer, _) => assert !Public(s, writer);
      case AdoptHost(_) => SlotFrame(s, t);
      case AdoptLoad(_, _) => SlotFrame(s, t);
      case AdoptWriterHost(_) => SlotFrame(s, t);
      case AdoptVerified => SlotFrame(s, t);
      case AdoptStop => SlotFrame(s, t);
      case AdoptWait => SlotFrame(s, t);
    }
  }

  lemma RegularSlotKept(s: State, o: Oracle)
    requires SlotInv(s) && RoundInv(s) && s.mpc.InRegular?
    ensures SlotInv(RegularNext(s, o))
  {
    var t := RegularNext(s, o);
    match s.mpc.regular {
      case RegularFailClose(_) =>
      case RegularStop => SlotFrame(s, t);
      case RegularWait => SlotFrame(s, t);
      case RegularFetch => SlotFrame(s, t);
      case RegularQuery(_) => SlotFrame(s, t);
      case RegularFailLoad => SlotFrame(s, t);
      case RegularFailStore => SlotFrame(s, t);
      case RegularFailVerified => SlotFrame(s, t);
      case RegularFailHost => SlotFrame(s, t);
    }
  }

  lemma HeadSlotKept(s: State)
    requires SlotInv(s) && s.mpc.AtHead?
    ensures SlotInv(HeadNext(s))
  {
    SlotFrame(s, HeadNext(s));
  }

  lemma SpawnSlotKept(s: State, o: Oracle)
    requires SlotInv(s) && s.mpc.Starting?
    ensures SlotInv(SpawnNext(s, o))
  {
    match s.mpc.spawn {
      case SpawnTest(_) => SlotFrame(s, SpawnNext(s, o));
      case Spawning(_) => SlotFrame(s, SpawnNext(s, o));
      case GrowTest => SlotFrame(s, SpawnNext(s, o));
      case Growing(_) => SlotFrame(s, SpawnNext(s, o));
    }
  }

  lemma MonitorSlotKept(s: State, o: Oracle)
    requires SlotInv(s) && ExclusiveInv(s) && ElectionInv(s) && PanicInv(s) && RoundInv(s) && MonitorEnabled(s, o)
    ensures SlotInv(MonitorNext(s, o))
  {
    if s.mpc.AtHead? { HeadSlotKept(s); }
    else if s.mpc.Opening? { OpenSlotKept(s, o); }
    else if s.mpc.Starting? { SpawnSlotKept(s, o); }
    else if s.mpc.Adopting? { AdoptSlotKept(s); }
    else if s.mpc.Checking? {
      CheckIsLocal(s, o, SameKeys(s.topologies.readerTopologiesById));
      SlotFrame(s, MonitorNext(s, o));
    }
    else if s.mpc.InRegular? { RegularSlotKept(s, o); }
  }

  /** A routine closes only what is its own. */
  lemma RoutineSlotKept(s: State, t: State, r: RoutineId)
    requires SlotInv(s) && ExclusiveInv(s) && r in s.routines && OnlyRoutine(s, t, r) && Moves(s, t, r)
    ensures SlotInv(t)
  {
    assert OwnConn(s, r);
    if s.routines[r].conn.Some? {
      assert !Public(s, s.routines[r].conn.value);
    }
  }

  lemma CallSlotKept(s: State, k: CallId)
    requires SlotInv(s) && k in s.calls
    ensures SlotInv(CallNext(s, k))
  {
    var t := CallNext(s, k);
    forall c: ConnId | SomeCallHolds(t.calls, c) ensures SomeCallHolds(s.calls, c) {
      var j :| j in t.calls && CallHolds(t.calls[j], c);
      assert CallHolds(s.calls[j], c);
    }
    match s.calls[k] {
      case CallStore(_) =>
      case CallUnverify(l) => assert l.Some? ==> TookOut(s.calls[k], l.value);
      case CallClose(l) => assert l.Some? ==> TookOut(s.calls[k], l.value) && CallHolds(s.calls[k], l.value);
      case CallOver =>
    }
  }

  lemma OtherSlotKept(s: State, e: Event)
    requires SlotInv(s) && Enabled(s, e) && !e.MonitorStep? && !e.RoutineStep? && !e.CallStep?
    ensures SlotInv(Next(s, e))
  {
    var t := Next(s, e);
    forall c: ConnId | SomeCallHolds(t.calls, c) ensures SomeCallHolds(s.calls, c) || s.link.monitoringConn == Some(c) {
      var j :| j in t.calls && CallHolds(t.calls[j], c);
      assert j in s.calls ==> CallHolds(s.calls[j], c);
    }
  }

  /** Every step keeps the monitoring connection open and unshared. */
  lemma SlotKept(s: State, e: Event)
    requires SlotInv(s) && ExclusiveInv(s) && ElectionInv(s) && PanicInv(s) && RoundInv(s) && Enabled(s, e)
    ensures SlotInv(Next(s, e))
  {
    match e {
      case MonitorStep(o) => MonitorSlotKept(s, o);
      case RoutineStep(r, o) =>
        assert EmptyHanded(s.routines[r]);
        RoutineMoves(s, r, o);
        RoutineSlotKept(s, RoutineNext(s, r, o), r);
      case CallStep(k) => CallSlotKept(s, k);
      case _ => OtherSlotKept(s, e);
    }
  }

  // ---------------------------------------------------------------------------------------------
  // Late stores
  // ---------------------------------------------------------------------------------------------

  /** The monitor is closing or has closed the connection it will overwrite. */
  predicate MonitorCloses(pc: MonitorPc, c: ConnId) {
    || pc == Opening(OpenFailStore(Some(c)))
    || (pc.Adopting? && pc.adopt.AdoptClose? && pc.adopt.loaded == Some(c))
    || pc == InRegular(RegularFailClose(Some(c)))
    || Replacing(pc)
  }

  /** A `ForceRefresh` call empties `monitoringConn` although neither it nor another refresh call looked while `c` was
      there, and the monitor is not closing `c` either. */
  ghost predicate LateStore(s: State, e: Event, c: ConnId) {
    && e.CallStep? && e.k in s.calls && s.calls[e.k].CallStore? && s.link.monitoringConn == Some(c)
    && (forall j :: j in s.calls ==> s.calls[j] != CallStore(Some(c)))
    && !MonitorCloses(s.mpc, c)
  }

  lemma LateStoreOrphans(s: State, e: Event, c: ConnId)
    requires SlotInv(s) && ExclusiveInv(s) && RoundInv(s) && PanicInv(s)
    ensures LateStore(s, e, c) <==> Orphans(s, e, c)
  {
    if LateStore(s, e, c) {
      assert Public(s, c);
      assert forall r :: r in s.routines ==> OwnConn(s, r);
      assert forall k :: k in s.calls ==> !TookOut(s.calls[k], c) && s.calls[k] != CallStore(Some(c));
    }
  }

  // ---------------------------------------------------------------------------------------------
  // Nobody gets an orphan back
  // ---------------------------------------------------------------------------------------------

  /** What an orphan is after a step: still one, and no atomic has got hold of it. */
  ghost predicate OrphanStays(s: State, t: State, c: ConnId) {
    Orphaned(t, c) && (AtomicsHold(t, c) ==> AtomicsHold(s, c))
  }

  lemma OrphanFrame(s: State, t: State, c: ConnId)
    requires PublicStays(s, t) && RaceStays(s, t) && t.routines == s.routines && Orphaned(s, c)
    ensures OrphanStays(s, t, c)
  {
    assert !Public(s, c);
    assert !Public(t, c);
  }

  lemma OrphanSpawn(s: State, t: State, id: RoutineId, c: ConnId)
    requires PublicStays(s, t) && RaceStays(s, t) && StartsAtMost(s, t, id) && id !in s.routines && Orphaned(s, c)
    ensures OrphanStays(s, t, c)
  {
    assert !Public(s, c);
    assert !Public(t, c);
    assert forall r :: r in t.routines && r in s.routines ==> t.routines[r] == s.routines[r];
  }

  lemma OrphanAdopt(s: State, c: ConnId)
    requires ElectionInv(s) && PanicInv(s) && RoundInv(s) && s.mpc.Adopting? && s.mpc.adopt.AdoptStore? && Orphaned(s, c)
    ensures OrphanStays(s, AdoptNext(s), c)
  {
    assert c != s.mpc.adopt.writer;
  }

  lemma OrphanReset(s: State, c: ConnId)
    requires s.mpc.Resetting? && Orphaned(s, c)
    ensures if AtomicsHold(s, c) then c in ResetNext(s).conns.closed else OrphanStays(s, ResetNext(s), c)
  {
  }

  lemma OrphanMoved(s: State, t: State, r: RoutineId, c: ConnId)
    requires r in s.routines && OnlyRoutine(s, t, r) && Moves(s, t, r) && Orphaned(s, c)
    ensures OrphanStays(s, t, c)
  {
    assert !Public(s, c) && !RoutineHolds(s.routines, c);
    assert s.routines[r].conn != Some(c);
    if Public(t, c) { MovedPublic(s, t, r, c); }
  }

  lemma OrphanMonitor(s: State, o: Oracle, c: ConnId)
    requires ElectionInv(s) && PanicInv(s) && RoundInv(s) && MonitorEnabled(s, o) && Orphaned(s, c)
    requires s.mpc.Resetting? ==> !AtomicsHold(s, c)
    ensures OrphanStays(s, MonitorNext(s, o), c)
  {
    if s.mpc.Starting? {
      SpawnStarts(s, o);
      SpawnPublic(s, o);
      OrphanSpawn(s, SpawnNext(s, o), o.routine, c);
    }
    else if s.mpc.Resetting? { OrphanReset(s, c); }
    else if s.mpc.Adopting? && s.mpc.adopt.AdoptStore? { OrphanAdopt(s, c); }
    else {
      PlainStays(s, o);
      OrphanFrame(s, MonitorNext(s, o), c);
    }
  }

  /** In every step an orphan stays one, unless a reset closes it because the atomics still hold it. */
  lemma OrphanKept(s: State, e: Event, c: ConnId)
    requires ElectionInv(s) && PanicInv(s) && RoundInv(s) && Enabled(s, e) && Orphaned(s, c)
    requires IsReset(s, e) ==> !AtomicsHold(s, c)
    ensures OrphanStays(s, Next(s, e), c)
  {
    match e {
      case MonitorStep(o) => OrphanMonitor(s, o, c);
      case RoutineStep(r, o) =>
        assert EmptyHanded(s.routines[r]);
        RoutineMoves(s, r, o);
        OrphanMoved(s, RoutineNext(s, r, o), r, c);
      case CallStep(k) =>
        CallPublic(s, k);
        OrphanFrame(s, CallNext(s, k), c);
      case _ =>
        OtherPublic(s, e);
        OrphanFrame(s, Next(s, e), c);
    }
  }

  /** A connection is orphaned after a step exactly when it was before and no reset closed it, or when the step is the
      late store of a refresh call. */
  lemma OrphansExactly(s: State, e: Event, c: ConnId)
    requires SlotInv(s) && ExclusiveInv(s) && ElectionInv(s) && PanicInv(s) && RoundInv(s) && Enabled(s, e)
    ensures Orphaned(Next(s, e), c) <==>
              (Orphaned(s, c) && !(IsReset(s, e) && AtomicsHold(s, c))) || LateStore(s, e, c)
  {
    LateStoreOrphans(s, e, c);
    if Orphans(s, e, c) {
      OrphanedThen(s, e.k, c);
      assert Public(s, c);
    } else if Orphaned(s, c) {
      if IsReset(s, e) && AtomicsHold(s, c) { OrphanReset(s, c); } else { OrphanKept(s, e, c); }
    } else if c in Next(s, e).conns.dialed {
      StepOwns(s, e, c);
    }
  }

  // ---------------------------------------------------------------------------------------------
  // Leaks
  // ---------------------------------------------------------------------------------------------

  /** The step after which `c` is lost for good: a late store of a connection the atomics do not hold, or the start of a
      round that clears the atomics holding an orphan. */
  ghost predicate LosesForGood(s: State, e: Event, c: ConnId) {
    (LateStore(s, e, c) && !AtomicsHold(s, c)) || (StartsRound(s, e) && Orphaned(s, c))
  }

  lemma CallKeepsAtomics(s: State, k: CallId, c: ConnId)
    requires k in s.calls
    ensures AtomicsHold(CallNext(s, k), c) <==> AtomicsHold(s, c)
  {
  }

  lemma StartClears(s: State, c: ConnId)
    requires s.mpc == AtHead(Panic) && s.hostRoutines == {}
    ensures !AtomicsHold(HeadNext(s), c)
  {
  }

  // Atomics are set only when they are empty, and cleared only by resets and when a round starts.

  predicate AtomicsStay(s: State, t: State) {
    && (s.race.hostRoutinesWriterConn.Some? ==> t.race.hostRoutinesWriterConn == s.race.hostRoutinesWriterConn)
    && (s.hostRoutinesReaderConn.Some? ==> t.hostRoutinesReaderConn == s.hostRoutinesReaderConn)
  }

  lemma HeadAtomics(s: State)
    requires s.mpc.AtHead? && !(s.mpc == AtHead(Panic) && s.hostRoutines == {})
    ensures AtomicsStay(s, HeadNext(s))
  {
  }

  lemma OpenAtomics(s: State, o: Oracle)
    requires s.mpc.Opening?
    ensures AtomicsStay(s, OpenNext(s, o))
  {
  }

  lemma SpawnAtomics(s: State, o: Oracle)
    requires s.mpc.Starting?
    ensures AtomicsStay(s, SpawnNext(s, o))
  {
  }

  lemma AdoptAtomics(s: State)
    requires s.mpc.Adopting?
    ensures AtomicsStay(s, AdoptNext(s))
  {
  }

  lemma RegularAtomics(s: State, o: Oracle)
    requires s.mpc.InRegular?
    ensures AtomicsStay(s, RegularNext(s, o))
  {
  }

  lemma MonitorAtomics(s: State, o: Oracle)
    requires MonitorEnabled(s, o) && !s.mpc.Resetting? && !StartsRound(s, MonitorStep(o))
    ensures AtomicsStay(s, MonitorNext(s, o))
  {
    if s.mpc.AtHead? { HeadAtomics(s); }
    else if s.mpc.Opening? { OpenAtomics(s, o); }
    else if s.mpc.Starting? { SpawnAtomics(s, o); }
    else if s.mpc.Adopting? { AdoptAtomics(s); }
    else if s.mpc.Checking? {
      CheckIsLocal(s, o, SameKeys(s.topologies.readerTopologiesById));
      CheckKeepsReaderConn(s, o, SameKeys(s.topologies.readerTopologiesById));
    }
    else { RegularAtomics(s, o); }
  }

  lemma VerifyAtomics(s: State, r: RoutineId, o: Oracle)
    requires r in s.routines && s.routines[r].pc.Verifying?
    ensures AtomicsStay(s, VerifyNext(s, r, o))
  {
    match s.routines[r].pc.verify {
      case Top =>
      case Connecting =>
      case AskWriter =>
      case CloseFailed =>
      case AskRole =>
    }
  }

  lemma ElectAtomics(s: State, r: RoutineId, o: Oracle)
    requires r in s.routines && s.routines[r].pc.Electing?
    ensures AtomicsStay(s, ElectNext(s, r, o))
  {
    match s.routines[r].pc.elect {
      case Elect =>
      case CloseLoser =>
      case Publish =>
      case Announce =>
      case SignalStop =>
    }
  }

  lemma ReadAtomics(s: State, r: RoutineId, o: Oracle, moved: bool)
    requires r in s.routines && s.routines[r].pc.Reading?
    ensures AtomicsStay(s, ReaderNext(s, r, o, moved))
  {
    match s.routines[r].pc.read {
      case ReaderBranch =>
      case TryReader =>
      case Fetch =>
      case ShareLatest(_) =>
      case ShareReport(_) =>
      case StoreReport(_) =>
    }
  }

  lemma LeaveAtomics(s: State, r: RoutineId)
    requires r in s.routines && s.routines[r].pc.Leaving?
    ensures AtomicsStay(s, LeaveNext(s, r))
  {
    match s.routines[r].pc.leave {
      case MarkCycle(_, _) =>
      case DropReport(_) =>
      case CloseOnLeave =>
    }
  }

  lemma AtomicsKept(s: State, e: Event)
    requires Enabled(s, e) && !IsReset(s, e) && !StartsRound(s, e)
    ensures AtomicsStay(s, Next(s, e))
  {
    match e {
      case MonitorStep(o) => MonitorAtomics(s, o);
      case RoutineStep(r, o) =>
        var pc := s.routines[r].pc;
        if pc.Verifying? { VerifyAtomics(s, r, o); }
        else if pc.Electing? { ElectAtomics(s, r, o); }
        else if pc.Reading? { ReadAtomics(s, r, o, WriterMoved(s.routines[r], Report(pc))); }
        else { LeaveAtomics(s, r); }
      case _ =>
    }
  }

  /** A connection is lost after a step exactly when it was before, or when the step loses it for good. In particular a
      lost connection stays lost. */
  lemma LeaksExactly(s: State, e: Event, c: ConnId)
    requires SlotInv(s) && ExclusiveInv(s) && ElectionInv(s) && PanicInv(s) && RoundInv(s) && Enabled(s, e)
    ensures Leaked(Next(s, e), c) <==> Leaked(s, c) || LosesForGood(s, e, c)
  {
    OrphansExactly(s, e, c);
    if StartsRound(s, e) {
      StartClears(s, c);
    } else if Orphaned(s, c) && !IsReset(s, e) {
      AtomicsKept(s, e);
      OrphanKept(s, e, c);
    } else if Orphaned(s, c) {
      OrphanReset(s, c);
    } else if LateStore(s, e, c) {
      CallKeepsAtomics(s, e.k, c);
    }
  }
}
