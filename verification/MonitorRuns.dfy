/** What holds of every run of the topology monitor, whatever the interleaving and whatever the oracles answer. */
module MonitorRuns {
  import opened Strings
  import opened Topology
  import opened TopologyMonitor
  import opened MonitorInvariants
  import opened MonitorOwnership
  import opened MonitorExclusive
  import opened MonitorLeaks
  import opened MonitorTopologies

  ghost predicate Inv(s: State) {
    PanicInv(s) && ElectionInv(s) && RoundInv(s) && ExclusiveInv(s) && SlotInv(s) && TopologyInv(s) && StabilityInv(s)
  }

  lemma InitInv(s: State)
    requires Init(s)
    ensures Inv(s)
  {
  }

  lemma InvKept(s: State, e: Event)
    requires Inv(s) && Enabled(s, e)
    ensures Inv(Next(s, e))
  {
    PanicKept(s, e);
    ElectionKept(s, e);
    RoundKept(s, e);
    ExclusiveKept(s, e);
    SlotKept(s, e);
    TopologyKept(s, e);
    StabilityKept(s, e);
  }

  lemma {:induction false} RunInv(trace: seq<State>, events: seq<Event>, i: nat)
    requires IsRun(trace, events) && i < |trace|
    ensures Inv(trace[i])
  {
    if i == 0 {
      InitInv(trace[0]);
    } else {
      RunInv(trace, events, i - 1);
      InvKept(trace[i - 1], events[i - 1]);
    }
  }

  // ---------------------------------------------------------------------------------------------
  // Writer election
  // ---------------------------------------------------------------------------------------------

  /** At most one routine wins the race of a round, with a connection to its own host that passed the writer tests. */
  lemma OneWinnerPerRound(trace: seq<State>, events: seq<Event>, i: nat, v: Win, w: Win)
    requires IsRun(trace, events) && i < |trace|
    requires v in trace[i].race.wins && w in trace[i].race.wins
    ensures v.round == w.round ==> v == w
    ensures w.conn in trace[i].conns.writerAnswered && w.conn in trace[i].conns.roleChecked
    ensures w.conn in trace[i].conns.dialed && trace[i].conns.dialed[w.conn] == w.host.host
  {
    RunInv(trace, events, i);
    var race := trace[i].race;
    var j :| 0 <= j < |race.wins| && race.wins[j] == v;
    var k :| 0 <= k < |race.wins| && race.wins[k] == w;
    assert j < k ==> race.wins[j].round < race.wins[k].round;
    assert k < j ==> race.wins[k].round < race.wins[j].round;
    assert SoundWin(race.wins[k], race, trace[i].conns);
  }

  /** The connection and the host the monitor takes over come from one and the same winner of that round. */
  lemma AdoptedPairIsOneWinners(trace: seq<State>, events: seq<Event>, i: nat, a: Adoption)
    requires IsRun(trace, events) && i < |trace| && a in trace[i].race.adoptions
    ensures exists w :: w in trace[i].race.wins && w.round == a.round && w.conn == a.conn
                        && a.host == w.host.(availability := Available)
    ensures a.conn in trace[i].conns.writerAnswered && a.conn in trace[i].conns.roleChecked
    ensures a.conn in trace[i].conns.dialed && trace[i].conns.dialed[a.conn] == a.host.host
  {
    RunInv(trace, events, i);
    var race := trace[i].race;
    var j :| 0 <= j < |race.adoptions| && race.adoptions[j] == a;
    assert FromWinner(race.adoptions[j], race);
    var w :| w in race.wins && w.round == a.round && w.conn == a.conn
             && a.host == w.host.(availability := Available);
    OneWinnerPerRound(trace, events, i, w, w);
  }

  /** While a host routine runs, the monitor is in panic mode or just leaving it, waiting for the routines to stop. */
  lemma RoutinesRunOnlyInPanicMode(trace: seq<State>, events: seq<Event>, i: nat)
    requires IsRun(trace, events) && i < |trace| && !AllDone(trace[i])
    ensures !trace[i].mpc.InRegular?
    ensures !trace[i].link.isVerifiedWriterConn
         || trace[i].mpc == Adopting(AdoptStop) || trace[i].mpc == Adopting(AdoptWait)
  {
    RunInv(trace, events, i);
  }

  /** The connection taken over is open at that moment, and the monitoring connection it replaces has been closed. */
  lemma AdoptedConnectionIsOpen(trace: seq<State>, events: seq<Event>, i: nat)
    requires IsRun(trace, events) && i < |events| && events[i].MonitorStep?
    requires trace[i].mpc.Adopting? && trace[i].mpc.adopt.AdoptStore?
    ensures var c := trace[i].mpc.adopt.writer;
            && trace[i + 1].link.monitoringConn == Some(c)
            && c in trace[i + 1].conns.dialed && c !in trace[i + 1].conns.closed
    ensures trace[i].link.monitoringConn.Some? ==> trace[i].link.monitoringConn.value in trace[i].conns.closed
  {
    RunInv(trace, events, i);
    AdoptedConnIsOpen(trace[i]);
  }

  /** A connection a routine is using is open, and neither the monitor nor a refresh call nor another routine has it. */
  lemma RoutineConnectionsAreItsOwn(trace: seq<State>, events: seq<Event>, i: nat, r: RoutineId)
    requires IsRun(trace, events) && i < |trace| && r in trace[i].routines && trace[i].routines[r].conn.Some?
    ensures !Public(trace[i], trace[i].routines[r].conn.value)
    ensures forall q :: q in trace[i].routines && q != r ==> trace[i].routines[q].conn != trace[i].routines[r].conn
  {
    RunInv(trace, events, i);
    assert OwnConn(trace[i], r);
  }

  // ---------------------------------------------------------------------------------------------
  // Connections
  // ---------------------------------------------------------------------------------------------

  lemma StepOrphans(trace: seq<State>, events: seq<Event>, i: nat, c: ConnId)
    requires IsRun(trace, events) && i < |events|
    ensures Orphaned(trace[i + 1], c) <==>
              (Orphaned(trace[i], c) && !(IsReset(trace[i], events[i]) && AtomicsHold(trace[i], c)))
              || LateStore(trace[i], events[i], c)
  {
    RunInv(trace, events, i);
    OrphansExactly(trace[i], events[i], c);
  }

  lemma StepLeaks(trace: seq<State>, events: seq<Event>, i: nat, c: ConnId)
    requires IsRun(trace, events) && i < |events|
    ensures Leaked(trace[i + 1], c) <==> Leaked(trace[i], c) || LosesForGood(trace[i], events[i], c)
  {
    RunInv(trace, events, i);
    LeaksExactly(trace[i], events[i], c);
  }

  lemma NoOrphanAtFirst(s: State, c: ConnId)
    requires Init(s)
    ensures !Orphaned(s, c) && !Leaked(s, c)
  {
  }

  lemma {:induction false} StaysLeaked(trace: seq<State>, events: seq<Event>, i: nat, n: nat, c: ConnId)
    requires IsRun(trace, events) && i <= n < |trace| && Leaked(trace[i], c)
    ensures Leaked(trace[n], c)
    decreases n - i
  {
    if i < n {
      StepLeaks(trace, events, i, c);
      StaysLeaked(trace, events, i + 1, n, c);
    }
  }

  /** What is lost stays lost: it is open, and in all the rest of the run it stays open and in nobody's hands. */
  lemma LostForGood(trace: seq<State>, events: seq<Event>, i: nat, n: nat, c: ConnId)
    requires IsRun(trace, events) && i <= n < |trace| && Leaked(trace[i], c)
    ensures Leaked(trace[n], c) && c in trace[n].conns.dialed && c !in trace[n].conns.closed
  {
    StaysLeaked(trace, events, i, n, c);
  }

  /** A connection is lost if and only if some step before lost it for good. */
  lemma {:induction false} LostExactly(trace: seq<State>, events: seq<Event>, n: nat, c: ConnId)
    requires IsRun(trace, events) && n < |trace|
    ensures Leaked(trace[n], c) <==> exists i :: 0 <= i < n && LosesForGood(trace[i], events[i], c)
  {
    if n == 0 {
      NoOrphanAtFirst(trace[0], c);
    } else {
      LostExactly(trace, events, n - 1, c);
      StepLeaks(trace, events, n - 1, c);
    }
  }

  /** A refresh call took `c` out of `monitoringConn` late, in step `i`, and no reset closed it before state `n`. */
  ghost predicate TakenOutLate(trace: seq<State>, events: seq<Event>, i: nat, n: nat, c: ConnId)
    requires i < n <= |events| && |events| < |trace|
  {
    && LateStore(trace[i], events[i], c)
    && forall j :: i < j < n ==> !(IsReset(trace[j], events[j]) && AtomicsHold(trace[j], c))
  }

  /** A connection is in nobody's hands if and only if a refresh call took it out late and no reset has closed it since. */
  lemma {:induction false} OrphanedExactly(trace: seq<State>, events: seq<Event>, n: nat, c: ConnId)
    requires IsRun(trace, events) && n < |trace|
    ensures Orphaned(trace[n], c) <==> exists i :: 0 <= i < n && TakenOutLate(trace, events, i, n, c)
  {
    if n == 0 {
      NoOrphanAtFirst(trace[0], c);
    } else {
      OrphanedExactly(trace, events, n - 1, c);
      StepOrphans(trace, events, n - 1, c);
      if Orphaned(trace[n], c) {
        if LateStore(trace[n - 1], events[n - 1], c) {
          assert TakenOutLate(trace, events, n - 1, n, c);
        } else {
          var i :| 0 <= i < n - 1 && TakenOutLate(trace, events, i, n - 1, c);
          assert TakenOutLate(trace, events, i, n, c);
        }
      }
      forall i | 0 <= i < n && TakenOutLate(trace, events, i, n, c) ensures Orphaned(trace[n], c) {
        if i < n - 1 { assert TakenOutLate(trace, events, i, n - 1, c); }
      }
    }
  }

  /** The guards alone: a refresh call takes `c` out late in step `i`; and either the atomics do not hold it at that time,
      or a later round clears them, in step `j`, before any reset. */
  ghost predicate LostBetween(trace: seq<State>, events: seq<Event>, i: nat, j: nat, c: ConnId)
    requires i <= j < |events| && |events| < |trace|
  {
    && LateStore(trace[i], events[i], c)
    && if i == j then !AtomicsHold(trace[i], c)
       else StartsRound(trace[j], events[j]) && forall k :: i < k < j ==> !IsReset(trace[k], events[k])
  }

  lemma LostBetweenLoses(trace: seq<State>, events: seq<Event>, i: nat, j: nat, c: ConnId)
    requires IsRun(trace, events) && i <= j < |events| && LostBetween(trace, events, i, j, c)
    ensures LosesForGood(trace[j], events[j], c)
  {
    if i < j {
      assert TakenOutLate(trace, events, i, j, c);
      OrphanedExactly(trace, events, j, c);
    }
  }

  /** An orphan that is not lost yet is held by the atomics of a round that has seen no reset since. */
  lemma {:induction false} OrphanStory(trace: seq<State>, events: seq<Event>, n: nat, c: ConnId)
    requires IsRun(trace, events) && n < |trace| && Orphaned(trace[n], c)
    ensures (exists i, j :: 0 <= i <= j < n && LostBetween(trace, events, i, j, c))
         || (AtomicsHold(trace[n], c)
             && exists i :: 0 <= i < n && LateStore(trace[i], events[i], c)
                            && forall k :: i < k < n ==> !IsReset(trace[k], events[k]))
  {
    NoOrphanAtFirst(trace[0], c);
    if n > 0 {
      var m := n - 1;
      var s, e := trace[m], events[m];
      StepOrphans(trace, events, m, c);
      if LateStore(s, e, c) {
        CallKeepsAtomics(s, e.k, c);
        assert !AtomicsHold(s, c) ==> LostBetween(trace, events, m, m, c);
      } else {
        OrphanStory(trace, events, m, c);
        if i, j :| 0 <= i <= j < m && LostBetween(trace, events, i, j, c) {
          assert 0 <= i <= j < n && LostBetween(trace, events, i, j, c);
        } else {
          var i :| 0 <= i < m && LateStore(trace[i], events[i], c) && forall k :: i < k < m ==> !IsReset(trace[k], events[k]);
          if StartsRound(s, e) {
            assert LostBetween(trace, events, i, m, c);
          } else {
            AtomicsKept(s, e);
            assert !IsReset(s, e);
          }
        }
      }
    }
  }

  /** A connection is lost if and only if a refresh call took it out of `monitoringConn` late, and either the atomics did
      not hold it then or a round cleared them before any reset. */
  lemma LostExactlyByLateRefresh(trace: seq<State>, events: seq<Event>, n: nat, c: ConnId)
    requires IsRun(trace, events) && n < |trace|
    ensures Leaked(trace[n], c) <==> exists i, j :: 0 <= i <= j < n && LostBetween(trace, events, i, j, c)
  {
    LostExactly(trace, events, n, c);
    if Leaked(trace[n], c) { OrphanStory(trace, events, n, c); }
    forall i, j | 0 <= i <= j < n && LostBetween(trace, events, i, j, c) ensures Leaked(trace[n], c) {
      LostBetweenLoses(trace, events, i, j, c);
    }
  }

  lemma MonitoringConnIsOpen(trace: seq<State>, events: seq<Event>, n: nat, c: ConnId)
    requires IsRun(trace, events) && n < |trace| && trace[n].link.monitoringConn == Some(c)
    ensures c in trace[n].conns.dialed && (!Replacing(trace[n].mpc) ==> c !in trace[n].conns.closed)
  {
    RunInv(trace, events, n);
    assert Public(trace[n], c);
  }

  /** A run never accumulates connections, except for those late refreshes took out: between rounds, when no refresh is
      under way, a connection is open if and only if it is the monitoring connection, or one that was taken out late and
      that no reset has closed since. */
  lemma NoAccumulation(trace: seq<State>, events: seq<Event>, n: nat, c: ConnId)
    requires IsRun(trace, events) && n < |trace|
    requires trace[n].mpc == AtHead(Head) && trace[n].hostRoutines == {}
    requires forall k :: k in trace[n].calls ==> trace[n].calls[k].CallOver?
    ensures c in trace[n].conns.dialed && c !in trace[n].conns.closed <==>
              trace[n].link.monitoringConn == Some(c) || exists i :: 0 <= i < n && TakenOutLate(trace, events, i, n, c)
  {
    RunInv(trace, events, n);
    OrphanedExactly(trace, events, n, c);
    if trace[n].link.monitoringConn == Some(c) { MonitoringConnIsOpen(trace, events, n, c); }
    if c in trace[n].conns.dialed && !Orphaned(trace[n], c) { WhoHasIt(trace[n], c); }
  }

  /** Whenever a round's routines have all finished, whatever the monitor and refresh calls are doing: a connection is
      closed, or it is the monitoring connection, the elected one, one the monitor is about to store or close, one a
      refresh call has looked at, or one such a call took out late. */
  lemma RoundClosesItsConnections(trace: seq<State>, events: seq<Event>, n: nat, c: ConnId)
    requires IsRun(trace, events) && n < |trace| && AllDone(trace[n])
    requires c in trace[n].conns.dialed && c !in trace[n].conns.closed
    ensures trace[n].link.monitoringConn == Some(c)
         || (!trace[n].race.adopted && trace[n].race.hostRoutinesWriterConn == Some(c))
         || MonitorHolds(trace[n].mpc, c) || SomeCallHolds(trace[n].calls, c)
         || exists i :: 0 <= i < n && TakenOutLate(trace, events, i, n, c)
  {
    RunInv(trace, events, n);
    OrphanedExactly(trace, events, n, c);
    if !Orphaned(trace[n], c) { WhoHasIt(trace[n], c); }
  }

  // ---------------------------------------------------------------------------------------------
  // Topologies
  // ---------------------------------------------------------------------------------------------

  /** Every topology ever stored for the cluster is not empty and has exactly one writer, in front. */
  lemma StoredTopologiesHaveOneWriter(trace: seq<State>, events: seq<Event>, i: nat)
    requires IsRun(trace, events) && i < |trace| && trace[i].topologies.stored.Some?
    ensures SingleWriterFirst(trace[i].topologies.stored.value)
    ensures DistinctNames(trace[i].topologies.stored.value)
  {
    RunInv(trace, events, i);
  }

  /** Whenever the stable-reader rule updates the cache, every check since a start more than 15 s earlier saw a stored
      topology, completed cycles of all its hosts, and at least one report with all reports alike. */
  lemma StableUpdatesAreDue(trace: seq<State>, events: seq<Event>, i: nat, u: StableUpdate)
    requires IsRun(trace, events) && i < |trace| && u in trace[i].stability.updates
    ensures u.start + STABLE_DURATION < u.time && u.checks <= |trace[i].stability.checks|
    ensures exists first :: 0 <= first < u.checks && trace[i].stability.checks[first].time == u.start
                            && forall j :: first <= j < u.checks ==> Agrees(trace[i].stability.checks[j])
  {
    RunInv(trace, events, i);
    var st := trace[i].stability;
    var k :| 0 <= k < |st.updates| && st.updates[k] == u;
    assert Due(st.updates[k], st.checks);
    var first :| AgreeingSince(st.checks, first, u.checks, u.start);
  }

  // ---------------------------------------------------------------------------------------------
  // A late refresh does happen
  // ---------------------------------------------------------------------------------------------

  function Asking(dial: Dial): Oracle {
    Oracle(dial, No, Unknown, [], [], 0, None, "")
  }

  function Start(): State {
    State(Link(None, false, None), Race(None, None, 0, true, [], None, []), Topologies(None, [], map[]),
          Stability({}, 0, [], []), Conns(map[], {}, {}, {}), false, None, AtHead(Head), {}, map[], map[], 1)
  }

  /** A refresh looks before the monitor has connected, the monitor connects, and only then the refresh stores. */
  function LateRefresh(i: nat): Event {
    match i
    case 0 => CallBegin(0)
    case 5 => MonitorStep(Asking(Connected(7)))
    case 7 => CallStep(0)
    case _ => MonitorStep(Asking(NothingReturned))
  }

  function LateState(i: nat): State {
    if i == 0 then Start()
    else
      var waiting := Start().(calls := map[0 := CallStore(None)]);
      var searching := waiting.(race := Start().race.(round := 1, adopted := false));
      var connected := searching.(conns := Conns(map[7 := INITIAL], {}, {}, {}));
      match i
      case 1 => waiting
      case 2 => waiting.(mpc := AtHead(Panic))
      case 3 => searching.(mpc := AtHead(StartHosts))
      case 4 => searching.(mpc := Opening(OpenLoad))
      case 5 => searching.(mpc := Opening(OpenConnect))
      case 6 => connected.(mpc := Opening(OpenSwap(7)))
      case 7 => connected.(mpc := Opening(OpenAsk), link := Link(Some(7), false, None))
      case _ => connected.(mpc := Opening(OpenAsk), calls := map[0 := CallUnverify(None)])
  }

  lemma LateStep(i: nat)
    requires i < 8
    ensures Enabled(LateState(i), LateRefresh(i)) && Next(LateState(i), LateRefresh(i)) == LateState(i + 1)
  {
    match i {
      case 0 =>
      case 1 =>
      case 2 =>
      case 3 =>
      case 4 =>
      case 5 =>
      case 6 =>
      case _ => assert i == 7;
    }
  }

  function LateTrace(): (trace: seq<State>)
    ensures |trace| == 9 && forall i :: 0 <= i < 9 ==> trace[i] == LateState(i)
  {
    seq(9, (i: nat) => LateState(i))
  }

  function LateEvents(): (events: seq<Event>)
    ensures |events| == 8 && forall i :: 0 <= i < 8 ==> events[i] == LateRefresh(i)
  {
    seq(8, (i: nat) => LateRefresh(i))
  }

  lemma LateRunLeaks()
    ensures IsRun(LateTrace(), LateEvents()) && Leaked(LateTrace()[8], 7)
  {
    forall i | 0 <= i < 8 ensures Enabled(LateState(i), LateRefresh(i))
                                  && Next(LateState(i), LateRefresh(i)) == LateState(i + 1) {
      LateStep(i);
    }
  }

  /** So there is a run in which the monitor's freshly opened connection is lost, and however the run goes on, nobody ever
      closes it. */
  lemma LateRefreshLeaks(trace: seq<State>, events: seq<Event>, n: nat)
    requires IsRun(trace, events) && LateTrace() <= trace && LateEvents() <= events && 8 <= n < |trace|
    ensures IsRun(LateTrace(), LateEvents())
    ensures 7 in trace[n].conns.dialed && 7 !in trace[n].conns.closed && Leaked(trace[n], 7)
  {
    LateRunLeaks();
    assert trace[8] == LateTrace()[8];
    LostForGood(trace, events, 8, n, 7);
  }
}
