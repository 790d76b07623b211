/** What the topology monitor may put into the cache, and when its stable-reader rule does so. */
module MonitorTopologies {
  import opened Strings
  import opened Topology
  import opened TopologyKey
  import opened TopologyMonitor
  import opened MonitorInvariants

  // ---------------------------------------------------------------------------------------------
  // Single-writer topologies
  // ---------------------------------------------------------------------------------------------

  predicate Usable(hosts: Hosts) {
    SingleWriterFirst(hosts) && DistinctNames(hosts)
  }

  predicate GoodTopologies(ts: Topologies) {
    && (ts.stored.Some? ==> Usable(ts.stored.value))
    && IsQueryResult(ts.hostRoutinesLatestTopology)
    && forall id :: id in ts.readerTopologiesById ==> Usable(ts.readerTopologiesById[id])
  }

  /** The topology a reader is about to share. */
  predicate GoodReport(pc: RoutinePc) {
    match pc
    case Reading(ShareLatest(hosts)) => Usable(hosts)
    case Reading(ShareReport(hosts)) => Usable(hosts)
    case Reading(StoreReport(hosts)) => Usable(hosts)
    case _ => true
  }

  predicate GoodStore(pc: MonitorPc) {
    pc.Checking? && pc.check.CheckStore? ==> Usable(pc.check.hosts)
  }

  ghost predicate TopologyInv(s: State) {
    && GoodTopologies(s.topologies) && GoodStore(s.mpc)
    && forall r :: r in s.routines ==> GoodReport(s.routines[r].pc)
  }

  lemma CacheRewrittenKeepsGood(ts: Topologies, hosts: Hosts, updated: Hosts)
    requires GoodTopologies(ts) && Usable(hosts) && SameButAvailability(hosts, updated)
    ensures GoodTopologies(Cache(ts, updated))
  {
    AvailabilityKeepsTopology(hosts, updated);
  }

  /** What a monitor step outside the stable-reader rule does to the topologies. */
  predicate CachesOrClears(a: Topologies, b: Topologies, hosts: Hosts) {
    || b == a
    || b == Cache(a, hosts)
    || b == a.(hostRoutinesLatestTopology := [])
    || b == a.(readerTopologiesById := map[])
    || b == Topologies(None, [], map[])
  }

  lemma HeadCaches(s: State, o: Oracle)
    requires s.mpc.AtHead?
    ensures CachesOrClears(s.topologies, HeadNext(s).topologies, o.hosts) && GoodStore(HeadNext(s).mpc)
  {
  }

  lemma OpenCaches(s: State, o: Oracle)
    requires s.mpc.Opening?
    ensures CachesOrClears(s.topologies, OpenNext(s, o).topologies, o.hosts) && GoodStore(OpenNext(s, o).mpc)
  {
    match s.mpc.open {
      case OpenLoad =>
      case OpenConnect =>
      case OpenSwap(_) =>
      case OpenCloseExtra(_) =>
      case OpenAsk =>
      case OpenVerified =>
      case OpenWriterHost =>
      case OpenFetch =>
      case OpenQuery(_) =>
      case OpenFailLoad =>
      case OpenFailStore(_) =>
      case OpenFailClose(_) =>
      case OpenFailVerified =>
      case OpenFailHost =>
    }
  }

  lemma SpawnCaches(s: State, o: Oracle)
    requires s.mpc.Starting?
    ensures SpawnNext(s, o).topologies == s.topologies && GoodStore(SpawnNext(s, o).mpc)
  {
  }

  lemma AdoptCaches(s: State, o: Oracle)
    requires s.mpc.Adopting?
    ensures CachesOrClears(s.topologies, AdoptNext(s).topologies, o.hosts) && GoodStore(AdoptNext(s).mpc)
  {
    match s.mpc.adopt {
      case AdoptHost(_) =>
      case AdoptLoad(_, _) =>
      case AdoptClose(_, _, _) =>
      case AdoptStore(_, _) =>
      case AdoptWriterHost(_) =>
      case AdoptVerified =>
      case AdoptStop =>
      case AdoptWait =>
    }
  }

  lemma RegularCaches(s: State, o: Oracle)
    requires s.mpc.InRegular?
    ensures CachesOrClears(s.topologies, RegularNext(s, o).topologies, o.hosts) && GoodStore(RegularNext(s, o).mpc)
  {
    match s.mpc.regular {
      case RegularStop =>
      case RegularWait =>
      case RegularFetch =>
      case RegularQuery(_) =>
      case RegularFailLoad =>
      case RegularFailClose(_) =>
      case RegularFailStore =>
      case RegularFailVerified =>
      case RegularFailHost =>
    }
  }

  lemma CheckCaches(s: State, o: Oracle, agree: bool)
    requires s.mpc.Checking? && PicksReport(s, o) && GoodTopologies(s.topologies) && GoodStore(s.mpc)
    requires s.mpc.check.CheckStore? ==> SameButAvailability(s.mpc.check.hosts, o.updated)
    ensures GoodTopologies(CheckNext(s, o, agree).topologies) && GoodStore(CheckNext(s, o, agree).mpc)
  {
    match s.mpc.check {
      case CheckStored =>
      case CheckCycles(_, _) =>
      case CheckReports(_, _) =>
      case CheckStore(hosts) => CacheRewrittenKeepsGood(s.topologies, hosts, o.updated);
    }
  }

  lemma CachingKeepsGood(a: Topologies, b: Topologies, hosts: Hosts)
    requires GoodTopologies(a) && CachesOrClears(a, b, hosts) && IsQueryResult(hosts)
    ensures GoodTopologies(b)
  {
  }

  lemma MonitorCaches(s: State, o: Oracle)
    requires TopologyInv(s) && MonitorEnabled(s, o)
    ensures GoodTopologies(MonitorNext(s, o).topologies) && GoodStore(MonitorNext(s, o).mpc)
  {
    if s.mpc.Checking? {
      CheckCaches(s, o, SameKeys(s.topologies.readerTopologiesById));
    } else {
      if s.mpc.AtHead? { HeadCaches(s, o); }
      else if s.mpc.Opening? { OpenCaches(s, o); }
      else if s.mpc.Starting? { SpawnCaches(s, o); }
      else if s.mpc.Adopting? { AdoptCaches(s, o); }
      else if s.mpc.InRegular? { RegularCaches(s, o); }
      CachingKeepsGood(s.topologies, MonitorNext(s, o).topologies, o.hosts);
    }
  }

  /** A monitor step starts routines, if any, without a report. */
  lemma MonitorReports(s: State, o: Oracle)
    requires MonitorEnabled(s, o)
    ensures StartsAtMost(s, MonitorNext(s, o), o.routine)
  {
    if s.mpc.AtHead? {
      assert HeadNext(s).routines == s.routines;
    } else if s.mpc.Opening? {
      OpenOutsideRace(s, o);
    } else if s.mpc.Starting? {
      SpawnStarts(s, o);
    } else if s.mpc.Adopting? {
      assert AdoptNext(s).routines == s.routines;
    } else if s.mpc.Checking? {
      CheckIsLocal(s, o, SameKeys(s.topologies.readerTopologiesById));
    } else if s.mpc.InRegular? {
      RegularOutsideRace(s, o);
    } else {
      ResetStartsRound(s);
    }
  }

  lemma VerifyReports(s: State, r: RoutineId, o: Oracle)
    requires r in s.routines && s.routines[r].pc.Verifying?
    ensures GoodReport(VerifyNext(s, r, o).routines[r].pc) && VerifyNext(s, r, o).topologies == s.topologies
  {
    match s.routines[r].pc.verify {
      case Top =>
      case Connecting =>
      case AskWriter =>
      case CloseFailed =>
      case AskRole =>
    }
  }

  lemma ElectReports(s: State, r: RoutineId, o: Oracle)
    requires r in s.routines && s.routines[r].pc.Electing?
    ensures GoodReport(ElectNext(s, r, o).routines[r].pc)
    ensures CachesOrClears(s.topologies, ElectNext(s, r, o).topologies, o.hosts)
  {
    match s.routines[r].pc.elect {
      case Elect =>
      case CloseLoser =>
      case Publish =>
      case Announce =>
      case SignalStop =>
    }
  }

  lemma ReadReports(s: State, r: RoutineId, o: Oracle, moved: bool)
    requires r in s.routines && s.routines[r].pc.Reading? && GoodReport(s.routines[r].pc)
    requires GoodTopologies(s.topologies) && IsQueryResult(o.hosts)
    requires s.routines[r].pc.read.StoreReport? ==> SameButAvailability(s.routines[r].pc.read.hosts, o.updated)
    ensures GoodReport(ReaderNext(s, r, o, moved).routines[r].pc)
    ensures GoodTopologies(ReaderNext(s, r, o, moved).topologies)
  {
    match s.routines[r].pc.read {
      case ReaderBranch =>
      case TryReader =>
      case Fetch =>
      case ShareLatest(_) =>
      case ShareReport(_) =>
      case StoreReport(hosts) => CacheRewrittenKeepsGood(s.topologies, hosts, o.updated);
    }
  }

  lemma LeaveReports(s: State, r: RoutineId)
    requires r in s.routines && s.routines[r].pc.Leaving? && GoodTopologies(s.topologies)
    ensures GoodReport(LeaveNext(s, r).routines[r].pc) && GoodTopologies(LeaveNext(s, r).topologies)
  {
    match s.routines[r].pc.leave {
      case MarkCycle(_, _) =>
      case DropReport(_) =>
      case CloseOnLeave =>
    }
  }

  lemma RoutineReports(s: State, r: RoutineId, o: Oracle)
    requires TopologyInv(s) && RoutineEnabled(s, r, o)
    ensures r in RoutineNext(s, r, o).routines && GoodReport(RoutineNext(s, r, o).routines[r].pc)
    ensures GoodTopologies(RoutineNext(s, r, o).topologies)
  {
    var pc := s.routines[r].pc;
    if pc.Verifying? { VerifyIsLocal(s, r, o); VerifyReports(s, r, o); }
    else if pc.Electing? {
      ElectIsLocal(s, r, o);
      ElectReports(s, r, o);
      CachingKeepsGood(s.topologies, ElectNext(s, r, o).topologies, o.hosts);
    }
    else if pc.Reading? {
      var moved := WriterMoved(s.routines[r], Report(pc));
      ReadIsLocal(s, r, o, moved);
      ReadReports(s, r, o, moved);
    }
    else { LeaveIsLocal(s, r); LeaveReports(s, r); }
  }

  lemma TopologyOther(s: State, e: Event)
    requires TopologyInv(s) && Enabled(s, e) && !e.MonitorStep? && !e.RoutineStep?
    ensures TopologyInv(Next(s, e))
  {
  }

  /** Every topology that is stored, shared or reported has exactly one writer, in front, and names each host once. */
  lemma TopologyKept(s: State, e: Event)
    requires TopologyInv(s) && Enabled(s, e)
    ensures TopologyInv(Next(s, e))
  {
    match e {
      case MonitorStep(o) =>
        MonitorCaches(s, o);
        MonitorReports(s, o);
      case RoutineStep(r, o) =>
        RoutineIsLocal(s, r, o);
        RoutineReports(s, r, o);
      case _ => TopologyOther(s, e);
    }
  }

  // ---------------------------------------------------------------------------------------------
  // The stable-reader rule
  // ---------------------------------------------------------------------------------------------

  /** The checks from `i` up to the `n`-th all saw agreement, the first of them at time `start`. */
  ghost predicate AgreeingSince(checks: seq<Check>, i: nat, n: nat, start: nat) {
    i < n <= |checks| && checks[i].time == start && forall j :: i <= j < n ==> Agrees(checks[j])
  }

  ghost predicate HasAgreedSince(checks: seq<Check>, n: nat, start: nat) {
    exists i :: AgreeingSince(checks, i, n, start)
  }

  /** A cache update was due: it was the last of a row of agreeing checks, the first more than 15 s earlier. */
  ghost predicate Due(u: StableUpdate, checks: seq<Check>) {
    && 0 < u.checks <= |checks| && checks[u.checks - 1].time == u.time && u.start + STABLE_DURATION < u.time
    && HasAgreedSince(checks, u.checks, u.start)
  }

  ghost predicate SoundStability(st: Stability, now: nat) {
    && (forall i, j :: 0 <= i <= j < |st.checks| ==> st.checks[i].time <= st.checks[j].time <= now)
    && (st.stableTopologiesStart > 0 ==>
          HasAgreedSince(st.checks, |st.checks|, st.stableTopologiesStart))
    && (forall k :: 0 <= k < |st.updates| ==> Due(st.updates[k], st.checks))
  }

  /** The cycles a check has seen so far are those of the first hosts, and they did complete. */
  predicate SawCycles(hosts: Hosts, cycled: seq<string>, completed: set<string>) {
    && hosts != [] && |cycled| <= |hosts|
    && forall i :: 0 <= i < |cycled| ==> cycled[i] == hosts[i].hostId && cycled[i] in completed
  }

  predicate CheckUnderWay(pc: MonitorPc, completed: set<string>) {
    && (pc.Checking? && pc.check.CheckCycles? ==> SawCycles(pc.check.hosts, pc.check.cycled, completed))
    && (pc.Checking? && pc.check.CheckReports? ==>
          SawCycles(pc.check.hosts, pc.check.cycled, completed) && |pc.check.cycled| == |pc.check.hosts|)
  }

  ghost predicate StabilityInv(s: State) {
    s.now > 0 && SoundStability(s.stability, s.now) && CheckUnderWay(s.mpc, s.stability.completedOneCycle)
  }

  /** A step that records no check may only forget the start or learn of completed cycles. */
  predicate RecordsNothing(a: Stability, b: Stability) {
    && b.checks == a.checks && b.updates == a.updates
    && (b.stableTopologiesStart == 0 || b.stableTopologiesStart == a.stableTopologiesStart)
  }

  lemma RecordingNothing(a: Stability, b: Stability, now: nat, now': nat)
    requires SoundStability(a, now) && RecordsNothing(a, b) && now <= now'
    ensures SoundStability(b, now')
  {
  }

  /** Ending a check: it is recorded, and the start may stay only if it saw agreement. */
  lemma EndingCheck(a: Stability, c: Check, start: nat, now: nat)
    requires SoundStability(a, now) && c.time == now > 0
    requires start == 0 || (Agrees(c) && start == if a.stableTopologiesStart == 0 then now else a.stableTopologiesStart)
    ensures SoundStability(a.(stableTopologiesStart := start, checks := a.checks + [c]), now)
    ensures start > 0 ==> HasAgreedSince(a.checks + [c], |a.checks| + 1, start)
  {
    var checks := a.checks + [c];
    if start > 0 {
      if a.stableTopologiesStart == 0 {
        assert AgreeingSince(checks, |a.checks|, |checks|, start);
      } else {
        var i :| AgreeingSince(a.checks, i, |a.checks|, a.stableTopologiesStart);
        assert AgreeingSince(checks, i, |checks|, start);
      }
    }
    forall k | 0 <= k < |a.updates| ensures Due(a.updates[k], checks) {
      var u := a.updates[k];
      var i :| AgreeingSince(a.checks, i, u.checks, u.start);
      assert AgreeingSince(checks, i, u.checks, u.start);
    }
  }

  lemma AgreementSeen(hosts: Hosts, cycled: seq<string>, completed: set<string>, reports: map<string, Hosts>, now: nat)
    requires SawCycles(hosts, cycled, completed) && |cycled| == |hosts| && reports != map[] && SameKeys(reports)
    ensures Agrees(Check(now, hosts, cycled, reports))
  {
    forall h | h in hosts ensures h.hostId in cycled {
      var i :| 0 <= i < |hosts| && hosts[i] == h;
      assert cycled[i] == h.hostId;
    }
  }

  function Recorded(st: Stability, c: Check, start: nat): Stability {
    st.(stableTopologiesStart := start, checks := st.checks + [c])
  }

  /** What the last part of the rule does, given the report and the start it works with. */
  lemma Decides(s: State, o: Oracle, agree: bool, c: Check, start: nat)
    requires s.mpc.Checking? && s.mpc.check.CheckReports? && PicksReport(s, o)
    requires c == Check(s.now, s.mpc.check.hosts, s.mpc.check.cycled, s.topologies.readerTopologiesById)
    requires start == if s.stability.stableTopologiesStart == 0 then s.now else s.stability.stableTopologiesStart
    ensures CheckNext(s, o, agree).stability
         == if c.reports == map[] || !agree then Recorded(s.stability, c, 0)
            else if s.now > start + STABLE_DURATION then
              Recorded(s.stability, c, 0)
                .(updates := s.stability.updates + [StableUpdate(s.now, start, |s.stability.checks| + 1)])
            else Recorded(s.stability, c, start)
  {
  }

  lemma AddUpdate(st: Stability, u: StableUpdate, now: nat)
    requires SoundStability(st, now) && Due(u, st.checks)
    ensures SoundStability(st.(updates := st.updates + [u]), now)
  {
  }

  lemma DecidingIsSound(s: State, o: Oracle, agree: bool)
    requires StabilityInv(s) && s.mpc.Checking? && s.mpc.check.CheckReports? && PicksReport(s, o)
    requires agree == SameKeys(s.topologies.readerTopologiesById)
    ensures SoundStability(CheckNext(s, o, agree).stability, s.now)
  {
    var st, hosts, cycled := s.stability, s.mpc.check.hosts, s.mpc.check.cycled;
    var c := Check(s.now, hosts, cycled, s.topologies.readerTopologiesById);
    var start := if st.stableTopologiesStart == 0 then s.now else st.stableTopologiesStart;
    Decides(s, o, agree, c, start);
    EndingCheck(st, c, 0, s.now);
    if c.reports != map[] && agree {
      AgreementSeen(hosts, cycled, st.completedOneCycle, c.reports, s.now);
      EndingCheck(st, c, start, s.now);
      if s.now > start + STABLE_DURATION {
        AddUpdate(Recorded(st, c, 0), StableUpdate(s.now, start, |st.checks| + 1), s.now);
      }
    }
  }

  lemma LookingIsSound(s: State, o: Oracle, agree: bool)
    requires StabilityInv(s) && s.mpc == Checking(CheckStored) && PicksReport(s, o)
    ensures SoundStability(CheckNext(s, o, agree).stability, s.now)
  {
    EndingCheck(s.stability, Check(s.now, [], [], map[]), 0, s.now);
    assert CheckNext(s, o, agree).stability == Recorded(s.stability, Check(s.now, [], [], map[]), 0)
        || CheckNext(s, o, agree).stability == s.stability;
  }

  lemma CountingIsSound(s: State, o: Oracle, agree: bool)
    requires StabilityInv(s) && s.mpc.Checking? && s.mpc.check.CheckCycles? && PicksReport(s, o)
    ensures SoundStability(CheckNext(s, o, agree).stability, s.now)
  {
    var c := Check(s.now, s.mpc.check.hosts, s.mpc.check.cycled, map[]);
    EndingCheck(s.stability, c, 0, s.now);
    assert CheckNext(s, o, agree).stability == Recorded(s.stability, c, 0)
        || CheckNext(s, o, agree).stability == s.stability;
  }

  lemma CheckIsSound(s: State, o: Oracle, agree: bool)
    requires StabilityInv(s) && s.mpc.Checking? && PicksReport(s, o)
    requires agree == SameKeys(s.topologies.readerTopologiesById)
    ensures SoundStability(CheckNext(s, o, agree).stability, s.now)
  {
    match s.mpc.check {
      case CheckStored => LookingIsSound(s, o, agree);
      case CheckCycles(_, _) => CountingIsSound(s, o, agree);
      case CheckReports(_, _) => DecidingIsSound(s, o, agree);
      case CheckStore(_) =>
    }
  }

  lemma CheckGoesOn(s: State, o: Oracle, agree: bool)
    requires StabilityInv(s) && s.mpc.Checking? && PicksReport(s, o)
    ensures CheckNext(s, o, agree).now == s.now
    ensures CheckUnderWay(CheckNext(s, o, agree).mpc, CheckNext(s, o, agree).stability.completedOneCycle)
  {
    match s.mpc.check {
      case CheckStored =>
      case CheckCycles(hosts, cycled) =>
      case CheckReports(_, _) =>
      case CheckStore(_) =>
    }
  }

  /** A monitor step outside the rule. */
  predicate OutsideRule(s: State, t: State) {
    RecordsNothing(s.stability, t.stability) && t.now == s.now && (t.mpc.Checking? ==> t.mpc.check.CheckStored?)
  }

  lemma OpenOutsideRule(s: State, o: Oracle)
    requires s.mpc.Opening?
    ensures OutsideRule(s, OpenNext(s, o))
  {
    match s.mpc.open {
      case OpenLoad =>
      case OpenConnect =>
      case OpenSwap(_) =>
      case OpenCloseExtra(_) =>
      case OpenAsk =>
      case OpenVerified =>
      case OpenWriterHost =>
      case OpenFetch =>
      case OpenQuery(_) =>
      case OpenFailLoad =>
      case OpenFailStore(_) =>
      case OpenFailClose(_) =>
      case OpenFailVerified =>
      case OpenFailHost =>
    }
  }

  lemma AdoptOutsideRule(s: State)
    requires s.mpc.Adopting?
    ensures OutsideRule(s, AdoptNext(s))
  {
    match s.mpc.adopt {
      case AdoptHost(_) =>
      case AdoptLoad(_, _) =>
      case AdoptClose(_, _, _) =>
      case AdoptStore(_, _) =>
      case AdoptWriterHost(_) =>
      case AdoptVerified =>
      case AdoptStop =>
      case AdoptWait =>
    }
  }

  lemma RegularOutsideRule(s: State, o: Oracle)
    requires s.mpc.InRegular?
    ensures OutsideRule(s, RegularNext(s, o))
  {
    match s.mpc.regular {
      case RegularStop =>
      case RegularWait =>
      case RegularFetch =>
      case RegularQuery(_) =>
      case RegularFailLoad =>
      case RegularFailClose(_) =>
      case RegularFailStore =>
      case RegularFailVerified =>
      case RegularFailHost =>
    }
  }

  lemma HeadOutsideRule(s: State)
    requires s.mpc.AtHead?
    ensures OutsideRule(s, HeadNext(s))
  {
  }

  lemma SpawnOutsideRule(s: State, o: Oracle)
    requires s.mpc.Starting?
    ensures OutsideRule(s, SpawnNext(s, o))
  {
  }

  lemma StabilityMonitor(s: State, o: Oracle)
    requires StabilityInv(s) && MonitorEnabled(s, o)
    ensures StabilityInv(MonitorNext(s, o))
  {
    if s.mpc.Checking? {
      CheckIsSound(s, o, SameKeys(s.topologies.readerTopologiesById));
      CheckGoesOn(s, o, SameKeys(s.topologies.readerTopologiesById));
    } else {
      var t := MonitorNext(s, o);
      if s.mpc.AtHead? { HeadOutsideRule(s); }
      else if s.mpc.Opening? { OpenOutsideRule(s, o); }
      else if s.mpc.Starting? { SpawnOutsideRule(s, o); }
      else if s.mpc.Adopting? { AdoptOutsideRule(s); }
      else if s.mpc.InRegular? { RegularOutsideRule(s, o); }
      RecordingNothing(s.stability, t.stability, s.now, t.now);
    }
  }

  /** A routine step may only add a completed cycle. */
  predicate LearnsCycles(s: State, t: State) {
    && RecordsNothing(s.stability, t.stability) && t.now == s.now && t.mpc == s.mpc
    && s.stability.completedOneCycle <= t.stability.completedOneCycle
  }

  lemma VerifyLearns(s: State, r: RoutineId, o: Oracle)
    requires r in s.routines && s.routines[r].pc.Verifying?
    ensures LearnsCycles(s, VerifyNext(s, r, o))
  {
    match s.routines[r].pc.verify {
      case Top =>
      case Connecting =>
      case AskWriter =>
      case CloseFailed =>
      case AskRole =>
    }
  }

  lemma ElectLearns(s: State, r: RoutineId, o: Oracle)
    requires r in s.routines && s.routines[r].pc.Electing?
    ensures LearnsCycles(s, ElectNext(s, r, o))
  {
    match s.routines[r].pc.elect {
      case Elect =>
      case CloseLoser =>
      case Publish =>
      case Announce =>
      case SignalStop =>
    }
  }

  lemma ReadLearns(s: State, r: RoutineId, o: Oracle, moved: bool)
    requires r in s.routines && s.routines[r].pc.Reading?
    ensures LearnsCycles(s, ReaderNext(s, r, o, moved))
  {
    match s.routines[r].pc.read {
      case ReaderBranch =>
      case TryReader =>
      case Fetch =>
      case ShareLatest(_) =>
      case ShareReport(_) =>
      case StoreReport(_) =>
    }
  }

  lemma LeaveLearns(s: State, r: RoutineId)
    requires r in s.routines && s.routines[r].pc.Leaving?
    ensures LearnsCycles(s, LeaveNext(s, r))
  {
    match s.routines[r].pc.leave {
      case MarkCycle(_, _) =>
      case DropReport(_) =>
      case CloseOnLeave =>
    }
  }

  lemma StabilityFrame(s: State, t: State)
    requires StabilityInv(s) && LearnsCycles(s, t)
    ensures StabilityInv(t)
  {
    RecordingNothing(s.stability, t.stability, s.now, t.now);
  }

  lemma StabilityRoutine(s: State, r: RoutineId, o: Oracle)
    requires StabilityInv(s) && RoutineEnabled(s, r, o)
    ensures StabilityInv(RoutineNext(s, r, o))
  {
    var pc := s.routines[r].pc;
    if pc.Verifying? { VerifyLearns(s, r, o); }
    else if pc.Electing? { ElectLearns(s, r, o); }
    else if pc.Reading? { ReadLearns(s, r, o, WriterMoved(s.routines[r], Report(pc))); }
    else { LeaveLearns(s, r); }
    StabilityFrame(s, RoutineNext(s, r, o));
  }

  lemma OtherRecordsNothing(s: State, e: Event)
    requires StabilityInv(s) && Enabled(s, e) && !e.MonitorStep? && !e.RoutineStep?
    ensures RecordsNothing(s.stability, Next(s, e).stability) && s.now <= Next(s, e).now
    ensures CheckUnderWay(Next(s, e).mpc, Next(s, e).stability.completedOneCycle)
  {
    match e {
      case CallBegin(_) =>
      case CallStep(_) =>
      case ResetBegin =>
      case TopologyExpires =>
      case Tick(_) =>
    }
  }

  /** In every step the rule's bookkeeping stays sound, so every cache update it made was due. */
  lemma StabilityKept(s: State, e: Event)
    requires StabilityInv(s) && Enabled(s, e)
    ensures StabilityInv(Next(s, e))
  {
    match e {
      case MonitorStep(o) => StabilityMonitor(s, o);
      case RoutineStep(r, o) => StabilityRoutine(s, r, o);
      case _ =>
        OtherRecordsNothing(s, e);
        RecordingNothing(s.stability, Next(s, e).stability, s.now, Next(s, e).now);
    }
  }
}
