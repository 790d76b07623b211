/** The cluster topology monitor as a step system: one `Monitor` loop, any number of host monitoring routines and any
    number of `ForceRefresh` calls, interleaved between every two accesses to shared state. The database, the network
    and the clock are oracles: what they answer is part of the event. */
module TopologyMonitor {
  import opened Strings
  import opened Topology
  import opened TopologyKey

  type ConnId = nat
  type RoutineId = nat
  type CallId = nat

  /** `stableTopologiesDurationNano`. */
  const STABLE_DURATION := 15_000_000_000

  // ---------------------------------------------------------------------------------------------
  // Oracles
  // ---------------------------------------------------------------------------------------------

  /** What `ForceConnect` brings: a failed attempt yields no connection. */
  datatype Dial = Connected(conn: ConnId) | NothingReturned | NetworkError | LoginError | OtherError

  datatype Answer = Yes | No | Failed

  /** The answers available to one step; each step reads only the ones it asks for. */
  datatype Oracle = Oracle(dial: Dial, answer: Answer, role: Role, hosts: Hosts, updated: Hosts,
                           routine: RoutineId, host: Option<HostInfo>, pick: string)

  // ---------------------------------------------------------------------------------------------
  // State
  // ---------------------------------------------------------------------------------------------

  // The shared atomics and maps of `ClusterTopologyMonitorImpl`, grouped by what they are about. Fields marked
  // "(record)" are bookkeeping about the run; steps do not look at them, except to give connections fresh names.

  /** The monitoring connection. */
  datatype Link = Link(
    monitoringConn: Option<ConnId>,
    isVerifiedWriterConn: bool,
    writerHostInfo: Option<HostInfo>)

  /** The race of the host routines for the writer. `wins` and `adoptions` (record) list what happened in which
      `round`; `adopted` (record) says whether the elected connection has been taken over. */
  datatype Race = Race(
    hostRoutinesWriterConn: Option<ConnId>,
    hostRoutinesWriterHostInfo: Option<HostInfo>,
    round: nat,
    adopted: bool,
    wins: seq<Win>,
    lastWin: Option<Win>,
    adoptions: seq<Adoption>)

  /** What is known about the cluster. */
  datatype Topologies = Topologies(
    stored: Option<Hosts>,
    hostRoutinesLatestTopology: Hosts,
    readerTopologiesById: map<string, Hosts>)

  /** The stable-reader rule; `checks` and `updates` (record) list its evaluations and the cache updates it made. */
  datatype Stability = Stability(
    completedOneCycle: set<string>,
    stableTopologiesStart: nat,
    checks: seq<Check>,
    updates: seq<StableUpdate>)

  /** Every connection (record): `dialed` holds all ever opened, with the host each was dialed to; `writerAnswered` those
      whose routine was told by the writer query that it leads to the writer, `roleChecked` those that passed the role
      check after that. */
  datatype Conns = Conns(
    dialed: map<ConnId, string>,
    closed: set<ConnId>,
    writerAnswered: set<ConnId>,
    roleChecked: set<ConnId>)

  /** Where a routine goes after its bookkeeping. */
  datatype Then = ToTop | ToReader | ToLeave

  datatype VerifyPc =
    | Top
    | Connecting
    | AskWriter
    | CloseFailed
    | AskRole

  datatype ElectPc =
    | Elect
    | CloseLoser
    | Publish
    | Announce
    | SignalStop

  datatype ReadPc =
    | ReaderBranch
    | TryReader
    | Fetch
    | ShareLatest(hosts: Hosts)
    | ShareReport(hosts: Hosts)
    | StoreReport(hosts: Hosts)

  datatype LeavePc =
    | MarkCycle(dropReport: bool, next: Then)
    | DropReport(next: Then)
    | CloseOnLeave

  datatype RoutinePc =
    | Verifying(verify: VerifyPc)
    | Electing(elect: ElectPc)
    | Reading(read: ReadPc)
    | Leaving(leave: LeavePc)
    | Done

  datatype Routine = Routine(hostInfo: HostInfo, writerHostInfo: Option<HostInfo>, writerChanged: bool,
                             updateTopology: bool, conn: Option<ConnId>, pc: RoutinePc)

  datatype HeadPc =
    | Head
    | HeadVerified
    | Panic
    | StartHosts

  datatype OpenPc =
    | OpenLoad
    | OpenConnect
    | OpenSwap(conn: ConnId)
    | OpenCloseExtra(conn: ConnId)
    | OpenAsk
    | OpenVerified
    | OpenWriterHost
    | OpenFetch
    | OpenQuery(target: Option<ConnId>)
    | OpenFailLoad
    | OpenFailStore(loaded: Option<ConnId>)
    | OpenFailClose(loaded: Option<ConnId>)
    | OpenFailVerified
    | OpenFailHost

  datatype SpawnPc =
    | SpawnTest(hosts: Hosts)
    | Spawning(hosts: Hosts)
    | GrowTest
    | Growing(hosts: Hosts)

  datatype AdoptPc =
    | AdoptHost(seen: Option<ConnId>)
    | AdoptLoad(writer: ConnId, host: HostInfo)
    | AdoptClose(writer: ConnId, host: HostInfo, loaded: Option<ConnId>)
    | AdoptStore(writer: ConnId, host: HostInfo)
    | AdoptWriterHost(host: HostInfo)
    | AdoptVerified
    | AdoptStop
    | AdoptWait

  datatype CheckPc =
    | CheckStored
    | CheckCycles(hosts: Hosts, cycled: seq<string>)
    | CheckReports(hosts: Hosts, cycled: seq<string>)
    | CheckStore(hosts: Hosts)

  datatype RegularPc =
    | RegularStop
    | RegularWait
    | RegularFetch
    | RegularQuery(target: Option<ConnId>)
    | RegularFailLoad
    | RegularFailClose(loaded: Option<ConnId>)
    | RegularFailStore
    | RegularFailVerified
    | RegularFailHost

  datatype MonitorPc =
    | AtHead(head: HeadPc)
    | Opening(open: OpenPc)
    | Starting(spawn: SpawnPc)
    | Adopting(adopt: AdoptPc)
    | Checking(check: CheckPc)
    | InRegular(regular: RegularPc)
    | Resetting

  /** The `verifyTopology` part of a `ForceRefresh` call. */
  datatype CallPc =
    | CallStore(loaded: Option<ConnId>)
    | CallUnverify(loaded: Option<ConnId>)
    | CallClose(loaded: Option<ConnId>)
    | CallOver

  /** A routine that won the compare-and-swap. */
  datatype Win = Win(round: nat, routine: RoutineId, conn: ConnId, host: HostInfo)

  /** What the monitor took over. */
  datatype Adoption = Adoption(round: nat, conn: ConnId, host: HostInfo)

  /** One run of `checkForStableReaderTopologies`: when it ended and what it had read. */
  datatype Check = Check(time: nat, hosts: Hosts, seen: seq<string>, reports: map<string, Hosts>)

  /** A cache update made by the stable-reader rule, as the last of the checks counted here. */
  datatype StableUpdate = StableUpdate(time: nat, start: nat, checks: nat)

  datatype State = State(link: Link, race: Race, topologies: Topologies, stability: Stability, conns: Conns,
                         hostRoutinesStop: bool, hostRoutinesReaderConn: Option<ConnId>,
                         mpc: MonitorPc, hostRoutines: set<string>,
                         routines: map<RoutineId, Routine>, calls: map<CallId, CallPc>, now: nat)

  predicate Init(s: State) {
    && s.link == Link(None, false, None)
    && s.race == Race(None, None, 0, true, [], None, [])
    && s.topologies == Topologies(None, [], map[])
    && s.stability == Stability({}, 0, [], [])
    && s.conns == Conns(map[], {}, {}, {})
    && !s.hostRoutinesStop && s.hostRoutinesReaderConn == None
    && s.mpc == AtHead(Head) && s.hostRoutines == {} && s.routines == map[] && s.calls == map[]
    && s.now > 0
  }

  // ---------------------------------------------------------------------------------------------
  // Small updates
  // ---------------------------------------------------------------------------------------------

  function Goto(s: State, pc: MonitorPc): State {
    s.(mpc := pc)
  }

  function CloseConn(l: Conns, c: Option<ConnId>): Conns {
    match c
    case None => l
    case Some(id) => l.(closed := l.closed + {id})
  }

  function OpenConn(l: Conns, c: ConnId, host: string): Conns {
    l.(dialed := l.dialed[c := host])
  }

  function AnswersAsWriter(l: Conns, c: Option<ConnId>): Conns {
    match c
    case None => l
    case Some(id) => l.(writerAnswered := l.writerAnswered + {id})
  }

  /** `updateTopologyCache`, when the query brought something. */
  function Cache(ts: Topologies, hosts: Hosts): Topologies {
    if hosts == [] then ts else ts.(stored := Some(hosts))
  }

  function StoredHosts(ts: Topologies): Hosts {
    match ts.stored
    case None => []
    case Some(hosts) => hosts
  }

  predicate AllDone(s: State) {
    forall r :: r in s.routines ==> s.routines[r].pc.Done?
  }

  function NewRoutine(s: State, host: HostInfo): Routine {
    Routine(host, s.link.writerHostInfo, false, false, None, Verifying(Top))
  }

  /** `Init`, `Add` and `Store` for one host. */
  function Spawn(s: State, host: HostInfo, id: RoutineId): State {
    s.(routines := s.routines[id := NewRoutine(s, host)], hostRoutines := s.hostRoutines + {host.host})
  }

  /** Forgetting a finished round. */
  function ClearRound(s: State): State {
    s.(hostRoutines := {},
       stability := s.stability.(stableTopologiesStart := 0, completedOneCycle := {}),
       topologies := s.topologies.(readerTopologiesById := map[]))
  }

  // ---------------------------------------------------------------------------------------------
  // Steps of the monitor
  // ---------------------------------------------------------------------------------------------

  function HeadNext(s: State): State
    requires s.mpc.AtHead?
  {
    match s.mpc.head
    case Head => Goto(s, if s.link.monitoringConn == None then AtHead(Panic) else AtHead(HeadVerified))
    case HeadVerified =>
      Goto(s, if !s.link.isVerifiedWriterConn then AtHead(Panic)
              else if s.hostRoutines != {} then InRegular(RegularStop)
              else InRegular(RegularFetch))
    case Panic =>
      if s.hostRoutines != {} then Goto(s, Adopting(AdoptHost(s.race.hostRoutinesWriterConn)))
      else
        s.(mpc := AtHead(StartHosts),
           hostRoutinesStop := false, hostRoutinesReaderConn := None,
           race := s.race.(hostRoutinesWriterConn := None, hostRoutinesWriterHostInfo := None,
                           round := s.race.round + 1, adopted := false),
           topologies := s.topologies.(hostRoutinesLatestTopology := []))
    case StartHosts =>
      Goto(s, if StoredHosts(s.topologies) == [] then Opening(OpenLoad) else Starting(SpawnTest(StoredHosts(s.topologies))))
  }

  /** `openAnyConnectionAndUpdateTopology`. `INITIAL` stands for the host it dials. */
  const INITIAL := ""

  function OpenNext(s: State, o: Oracle): State
    requires s.mpc.Opening?
  {
    match s.mpc.open
    case OpenLoad => Goto(s, if s.link.monitoringConn == None then Opening(OpenConnect) else Opening(OpenFetch))
    case OpenConnect =>
      if o.dial.Connected? then
        s.(mpc := Opening(OpenSwap(o.dial.conn)), conns := OpenConn(s.conns, o.dial.conn, INITIAL))
      else Goto(s, Starting(SpawnTest([])))
    case OpenSwap(c) =>
      if s.link.monitoringConn == None then
        s.(mpc := Opening(OpenAsk), link := s.link.(monitoringConn := Some(c)))
      else Goto(s, Opening(OpenCloseExtra(c)))
    case OpenCloseExtra(c) => s.(mpc := Opening(OpenFetch), conns := CloseConn(s.conns, Some(c)))
    case OpenAsk => Goto(s, if o.answer == Yes then Opening(OpenVerified) else Opening(OpenFetch))
    case OpenVerified => s.(mpc := Opening(OpenWriterHost), link := s.link.(isVerifiedWriterConn := true))
    case OpenWriterHost =>
      s.(mpc := Opening(OpenFetch),
         link := if o.host.Some? then s.link.(writerHostInfo := o.host) else s.link)
    case OpenFetch => Goto(s, Opening(OpenQuery(s.link.monitoringConn)))
    case OpenQuery(target) =>
      if target == None || o.hosts == [] then Goto(s, Opening(OpenFailLoad))
      else s.(mpc := Starting(SpawnTest(o.hosts)), topologies := Cache(s.topologies, o.hosts))
    case OpenFailLoad => Goto(s, Opening(OpenFailStore(s.link.monitoringConn)))
    case OpenFailStore(l) => s.(mpc := Opening(OpenFailClose(l)), link := s.link.(monitoringConn := None))
    case OpenFailClose(l) => s.(mpc := Opening(OpenFailVerified), conns := CloseConn(s.conns, l))
    case OpenFailVerified => s.(mpc := Opening(OpenFailHost), link := s.link.(isVerifiedWriterConn := false))
    case OpenFailHost => s.(mpc := Starting(SpawnTest([])), link := s.link.(writerHostInfo := None))
  }

  function SpawnNext(s: State, o: Oracle): State
    requires s.mpc.Starting?
  {
    match s.mpc.spawn
    case SpawnTest(hosts) =>
      Goto(s, if hosts != [] && !s.link.isVerifiedWriterConn then Starting(Spawning(hosts)) else Checking(CheckStored))
    case Spawning(hosts) =>
      if hosts == [] then Goto(s, Checking(CheckStored))
      else Goto(Spawn(s, hosts[0], o.routine), Starting(Spawning(hosts[1..])))
    case GrowTest =>
      Goto(s, if s.topologies.hostRoutinesLatestTopology != [] && !s.hostRoutinesStop
              then Starting(Growing(s.topologies.hostRoutinesLatestTopology)) else Checking(CheckStored))
    case Growing(hosts) =>
      if hosts == [] then Goto(s, Checking(CheckStored))
      else if hosts[0].host in s.hostRoutines then Goto(s, Starting(Growing(hosts[1..])))
      else Goto(Spawn(s, hosts[0], o.routine), Starting(Growing(hosts[1..])))
  }

  function AdoptNext(s: State): State
    requires s.mpc.Adopting?
  {
    match s.mpc.adopt
    case AdoptHost(writer) =>
      Goto(s, if writer.Some? && s.race.hostRoutinesWriterHostInfo.Some?
              then Adopting(AdoptLoad(writer.value, s.race.hostRoutinesWriterHostInfo.value)) else Starting(GrowTest))
    case AdoptLoad(writer, host) => Goto(s, Adopting(AdoptClose(writer, host, s.link.monitoringConn)))
    case AdoptClose(writer, host, l) => s.(mpc := Adopting(AdoptStore(writer, host)), conns := CloseConn(s.conns, l))
    case AdoptStore(writer, host) =>
      s.(mpc := Adopting(AdoptWriterHost(host)), link := s.link.(monitoringConn := Some(writer)),
         race := s.race.(adopted := true,
                         adoptions := s.race.adoptions + [Adoption(s.race.round, writer, host)]))
    case AdoptWriterHost(host) => s.(mpc := Adopting(AdoptVerified), link := s.link.(writerHostInfo := Some(host)))
    case AdoptVerified => s.(mpc := Adopting(AdoptStop), link := s.link.(isVerifiedWriterConn := true))
    case AdoptStop => s.(mpc := Adopting(AdoptWait), hostRoutinesStop := true)
    case AdoptWait => Goto(ClearRound(s), AtHead(Head))
  }

  predicate SameKeys(reports: map<string, Hosts>) {
    forall i, j :: i in reports && j in reports ==> Key(reports[i]) == Key(reports[j])
  }

  /** A check that saw agreement: a topology is stored, all its hosts completed a cycle, and all reports agree. */
  predicate Agrees(c: Check) {
    && c.hosts != [] && c.reports != map[] && SameKeys(c.reports)
    && forall h :: h in c.hosts ==> h.hostId in c.seen
  }

  function EndCheck(s: State, hosts: Hosts, seen: seq<string>, reports: map<string, Hosts>, start: nat): State {
    s.(mpc := AtHead(Head),
       stability := s.stability.(stableTopologiesStart := start,
                                 checks := s.stability.checks + [Check(s.now, hosts, seen, reports)]))
  }

  predicate PicksReport(s: State, o: Oracle) {
    s.mpc.Checking? && s.mpc.check.CheckReports? && s.topologies.readerTopologiesById != map[] ==>
      o.pick in s.topologies.readerTopologiesById
  }

  /** `checkForStableReaderTopologies`; `agree` tells whether all reports have one key, and `o.pick` is the report the
      map iteration yields first. */
  function CheckNext(s: State, o: Oracle, agree: bool): State
    requires s.mpc.Checking?
    requires PicksReport(s, o)
  {
    match s.mpc.check
    case CheckStored =>
      if StoredHosts(s.topologies) == [] then EndCheck(s, [], [], map[], 0)
      else Goto(s, Checking(CheckCycles(StoredHosts(s.topologies), [])))
    case CheckCycles(hosts, seen) =>
      if |seen| >= |hosts| then Goto(s, Checking(CheckReports(hosts, seen)))
      else if hosts[|seen|].hostId in s.stability.completedOneCycle then
        Goto(s, Checking(CheckCycles(hosts, seen + [hosts[|seen|].hostId])))
      else EndCheck(s, hosts, seen, map[], 0)
    case CheckReports(hosts, seen) =>
      var reports := s.topologies.readerTopologiesById;
      if reports == map[] || !agree then EndCheck(s, hosts, seen, reports, 0)
      else
        var start := if s.stability.stableTopologiesStart == 0 then s.now else s.stability.stableTopologiesStart;
        if s.now > start + STABLE_DURATION then
          var ended := EndCheck(s, hosts, seen, reports, 0);
          ended.(mpc := Checking(CheckStore(reports[o.pick])),
                 stability := ended.stability.(updates := ended.stability.updates
                                               + [StableUpdate(s.now, start, |ended.stability.checks|)]))
        else EndCheck(s, hosts, seen, reports, start)
    case CheckStore(hosts) => s.(mpc := AtHead(Head), topologies := Cache(s.topologies, o.updated))
  }

  function RegularNext(s: State, o: Oracle): State
    requires s.mpc.InRegular?
  {
    match s.mpc.regular
    case RegularStop => s.(mpc := InRegular(RegularWait), hostRoutinesStop := true)
    case RegularWait => Goto(ClearRound(s), InRegular(RegularFetch))
    case RegularFetch => Goto(s, InRegular(RegularQuery(s.link.monitoringConn)))
    case RegularQuery(target) =>
      if target == None || o.hosts == [] then Goto(s, InRegular(RegularFailLoad))
      else s.(mpc := AtHead(Head), topologies := Cache(s.topologies, o.hosts))
    case RegularFailLoad => Goto(s, InRegular(RegularFailClose(s.link.monitoringConn)))
    case RegularFailClose(l) => s.(mpc := InRegular(RegularFailStore), conns := CloseConn(s.conns, l))
    case RegularFailStore => s.(mpc := InRegular(RegularFailVerified), link := s.link.(monitoringConn := None))
    case RegularFailVerified => s.(mpc := InRegular(RegularFailHost), link := s.link.(isVerifiedWriterConn := false))
    case RegularFailHost => s.(mpc := AtHead(Head), link := s.link.(writerHostInfo := None))
  }

  /** The part of `reset` after its wait. A reset ends the round. */
  function ResetNext(s: State): State {
    s.(mpc := AtHead(Head), hostRoutines := {}, hostRoutinesStop := false, hostRoutinesReaderConn := None,
       link := Link(None, false, None),
       race := s.race.(hostRoutinesWriterConn := None, hostRoutinesWriterHostInfo := None,
                       round := s.race.round + 1, adopted := true),
       topologies := Topologies(None, [], map[]),
       stability := s.stability.(stableTopologiesStart := 0, completedOneCycle := {}),
       conns := CloseConn(CloseConn(CloseConn(s.conns, s.race.hostRoutinesWriterConn), s.hostRoutinesReaderConn),
                          s.link.monitoringConn))
  }

  predicate MonitorEnabled(s: State, o: Oracle) {
    && IsQueryResult(o.hosts)
    && (o.dial.Connected? ==> o.dial.conn !in s.conns.dialed)
    && o.routine !in s.routines
    && (s.mpc == Adopting(AdoptWait) || s.mpc == InRegular(RegularWait) || s.mpc == Resetting ==> AllDone(s))
    && PicksReport(s, o)
    && (s.mpc.Checking? && s.mpc.check.CheckStore? ==> SameButAvailability(s.mpc.check.hosts, o.updated))
  }

  function MonitorNext(s: State, o: Oracle): State
    requires MonitorEnabled(s, o)
  {
    if s.mpc.AtHead? then HeadNext(s)
    else if s.mpc.Opening? then OpenNext(s, o)
    else if s.mpc.Starting? then SpawnNext(s, o)
    else if s.mpc.Adopting? then AdoptNext(s)
    else if s.mpc.Checking? then CheckNext(s, o, SameKeys(s.topologies.readerTopologiesById))
    else if s.mpc.InRegular? then RegularNext(s, o)
    else ResetNext(s)
  }

  // ---------------------------------------------------------------------------------------------
  // Steps of a host monitoring routine
  // ---------------------------------------------------------------------------------------------

  function SetRoutine(s: State, r: RoutineId, h: Routine): State {
    s.(routines := s.routines[r := h])
  }

  function After(next: Then): RoutinePc {
    match next
    case ToTop => Verifying(Top)
    case ToReader => Reading(ReaderBranch)
    case ToLeave => Leaving(CloseOnLeave)
  }

  /** Whether a report names another writer than the one known when the routine was started. */
  predicate WriterMoved(h: Routine, hosts: Hosts) {
    && GetWriter(hosts).Some? && h.writerHostInfo.Some?
    && HostAndPort(GetWriter(hosts).value) != HostAndPort(h.writerHostInfo.value)
  }

  predicate RoutineEnabled(s: State, r: RoutineId, o: Oracle) {
    && r in s.routines
    && !s.routines[r].pc.Done?
    && IsQueryResult(o.hosts)
    && (o.dial.Connected? ==> o.dial.conn !in s.conns.dialed)
    && (s.routines[r].pc.Reading? && s.routines[r].pc.read.StoreReport? ==>
          SameButAvailability(s.routines[r].pc.read.hosts, o.updated))
  }

  /** Verifying(Connecting) and asking who we are talking to. */
  function VerifyNext(s: State, r: RoutineId, o: Oracle): State
    requires r in s.routines
    requires s.routines[r].pc.Verifying?
  {
    var h := s.routines[r];
    match h.pc.verify
    case Top =>
      SetRoutine(s, r, h.(pc := if s.hostRoutinesStop then Leaving(MarkCycle(true, ToLeave))
                               else if h.conn == None then Verifying(Connecting) else Verifying(AskWriter)))
    case Connecting =>
      (match o.dial
       case Connected(c) =>
         SetRoutine(s, r, h.(pc := Verifying(AskWriter), conn := Some(c)))
           .(conns := OpenConn(s.conns, c, h.hostInfo.host))
       case NothingReturned => SetRoutine(s, r, h.(pc := Leaving(MarkCycle(false, ToTop))))
       case LoginError => SetRoutine(s, r, h.(pc := Leaving(MarkCycle(true, ToLeave))))
       case _ => SetRoutine(s, r, h.(pc := Leaving(MarkCycle(true, ToTop)))))
    case AskWriter =>
      (match o.answer
       case Yes => SetRoutine(s, r, h.(pc := Verifying(AskRole))).(conns := AnswersAsWriter(s.conns, h.conn))
       case No => SetRoutine(s, r, h.(pc := Reading(ReaderBranch)))
       case Failed => SetRoutine(s, r, h.(pc := Verifying(CloseFailed))))
    case CloseFailed =>
      SetRoutine(s, r, h.(pc := Leaving(MarkCycle(true, ToReader)), conn := None)).(conns := CloseConn(s.conns, h.conn))
    case AskRole =>
      if o.role == Writer && h.conn.Some? then
        SetRoutine(s, r, h.(pc := Electing(Elect)))
          .(conns := s.conns.(roleChecked := s.conns.roleChecked + {h.conn.value}))
      else SetRoutine(s, r, h.(pc := Reading(ReaderBranch)))
  }

  function WinRace(race: Race, w: Win): Race {
    race.(hostRoutinesWriterConn := Some(w.conn), wins := race.wins + [w], lastWin := Some(w))
  }

  /** The race for the writer connection. */
  function ElectNext(s: State, r: RoutineId, o: Oracle): State
    requires r in s.routines
    requires s.routines[r].pc.Electing?
  {
    var h := s.routines[r];
    match h.pc.elect
    case Elect =>
      if s.race.hostRoutinesWriterConn == None && h.conn.Some? then
        SetRoutine(s, r, h.(pc := Electing(Publish), conn := None))
          .(race := WinRace(s.race, Win(s.race.round, r, h.conn.value, h.hostInfo)))
      else SetRoutine(s, r, h.(pc := Electing(CloseLoser)))
    case CloseLoser =>
      SetRoutine(s, r, h.(pc := Leaving(MarkCycle(true, ToLeave)), conn := None)).(conns := CloseConn(s.conns, h.conn))
    case Publish => SetRoutine(s, r, h.(pc := Electing(Announce))).(topologies := Cache(s.topologies, o.hosts))
    case Announce =>
      SetRoutine(s, r, h.(pc := Electing(SignalStop)))
        .(race := s.race.(hostRoutinesWriterHostInfo := Some(h.hostInfo.(availability := Available))))
    case SignalStop =>
      SetRoutine(s, r, h.(pc := Leaving(MarkCycle(true, ToLeave)))).(hostRoutinesStop := true)
  }

  /** The topology a reader has just fetched. */
  function Report(pc: RoutinePc): Hosts {
    if pc.Reading? && pc.read.ShareReport? then pc.read.hosts else []
  }

  /** The reader's part, `readerRoutineFetchTopology`; `writerMoved` tells whether the report names another writer. */
  function ReaderNext(s: State, r: RoutineId, o: Oracle, writerMoved: bool): State
    requires r in s.routines && s.routines[r].pc.Reading?
  {
    var h := s.routines[r];
    match h.pc.read
    case ReaderBranch =>
      SetRoutine(s, r, h.(pc := if s.race.hostRoutinesWriterConn == None then Reading(TryReader)
                               else Leaving(MarkCycle(false, ToTop))))
    case TryReader =>
      if !h.updateTopology && s.hostRoutinesReaderConn == None then
        SetRoutine(s, r, h.(pc := Reading(Fetch), updateTopology := true))
          .(hostRoutinesReaderConn := h.conn)
      else SetRoutine(s, r, h.(pc := Reading(Fetch)))
    case Fetch =>
      SetRoutine(s, r, h.(pc := if h.conn == None || o.hosts == [] then Leaving(MarkCycle(false, ToTop))
                               else Reading(ShareLatest(o.hosts))))
    case ShareLatest(hosts) =>
      SetRoutine(s, r, h.(pc := Reading(ShareReport(hosts)))).(topologies := s.topologies.(hostRoutinesLatestTopology := hosts))
    case ShareReport(hosts) =>
      var moved := h.writerChanged || writerMoved;
      SetRoutine(s, r, h.(pc := if moved then Reading(StoreReport(hosts)) else Leaving(MarkCycle(false, ToTop)), writerChanged := moved))
        .(topologies := s.topologies.(readerTopologiesById := s.topologies.readerTopologiesById[h.hostInfo.hostId := hosts]))
    case StoreReport(hosts) =>
      SetRoutine(s, r, h.(pc := Leaving(MarkCycle(false, ToTop)))).(topologies := Cache(s.topologies, o.updated))
  }

  /** Bookkeeping shared by all paths, and the deferred clean-up. */
  function LeaveNext(s: State, r: RoutineId): State
    requires r in s.routines
    requires s.routines[r].pc.Leaving?
  {
    var h := s.routines[r];
    match h.pc.leave
    case MarkCycle(drop, next) =>
      SetRoutine(s, r, h.(pc := if drop then Leaving(DropReport(next)) else After(next)))
        .(stability := s.stability.(completedOneCycle := s.stability.completedOneCycle + {h.hostInfo.hostId}))
    case DropReport(next) =>
      SetRoutine(s, r, h.(pc := After(next)))
        .(topologies := s.topologies.(readerTopologiesById := s.topologies.readerTopologiesById - {h.hostInfo.hostId}))
    case CloseOnLeave => SetRoutine(s, r, h.(pc := Done, conn := None)).(conns := CloseConn(s.conns, h.conn))
  }

  function RoutineNext(s: State, r: RoutineId, o: Oracle): State
    requires RoutineEnabled(s, r, o)
  {
    var pc := s.routines[r].pc;
    if pc.Verifying? then VerifyNext(s, r, o)
    else if pc.Electing? then ElectNext(s, r, o)
    else if pc.Reading? then ReaderNext(s, r, o, WriterMoved(s.routines[r], Report(pc)))
    else LeaveNext(s, r)
  }

  // ---------------------------------------------------------------------------------------------
  // Steps of a `ForceRefresh` call
  // ---------------------------------------------------------------------------------------------

  function CallNext(s: State, k: CallId): State
    requires k in s.calls
  {
    match s.calls[k]
    case CallStore(l) =>
      s.(calls := s.calls[k := CallUnverify(l)],
         link := s.link.(monitoringConn := None))
    case CallUnverify(l) =>
      s.(calls := s.calls[k := CallClose(l)], link := s.link.(isVerifiedWriterConn := false))
    case CallClose(l) => s.(calls := s.calls[k := CallOver], conns := CloseConn(s.conns, l))
    case CallOver => s
  }

  // ---------------------------------------------------------------------------------------------
  // Runs
  // ---------------------------------------------------------------------------------------------

  datatype Event =
    | MonitorStep(o: Oracle)
    | RoutineStep(r: RoutineId, o: Oracle)
    | CallBegin(k: CallId)
    | CallStep(k: CallId)
    | ResetBegin
    | TopologyExpires
    | Tick(time: nat)

  predicate Enabled(s: State, e: Event) {
    match e
    case MonitorStep(o) => MonitorEnabled(s, o)
    case RoutineStep(r, o) => RoutineEnabled(s, r, o)
    case CallBegin(k) => k !in s.calls
    case CallStep(k) => k in s.calls
    case ResetBegin => s.mpc == AtHead(Head)
    case TopologyExpires => true
    case Tick(t) => true
  }

  function Next(s: State, e: Event): State
    requires Enabled(s, e)
  {
    match e
    case MonitorStep(o) => MonitorNext(s, o)
    case RoutineStep(r, o) => RoutineNext(s, r, o)
    case CallBegin(k) => s.(calls := s.calls[k := CallStore(s.link.monitoringConn)])
    case CallStep(k) => CallNext(s, k)
    case ResetBegin => s.(mpc := Resetting, hostRoutinesStop := true)
    case TopologyExpires => s.(topologies := s.topologies.(stored := None))
    case Tick(t) => s.(now := s.now + t)
  }

  /** `trace` is a run: it starts in an initial state and every state follows from the one before. */
  ghost predicate IsRun(trace: seq<State>, events: seq<Event>) {
    && |trace| == |events| + 1 && Init(trace[0])
    && forall i :: 0 <= i < |events| ==> Enabled(trace[i], events[i]) && trace[i + 1] == Next(trace[i], events[i])
  }
}
