/** The internal connection pool: as a step system, with every unlock window of `Get` and of a connection's `Close`
    open to interleaving, and as the class its methods belong to. */
module ConnPool {
  import opened Strings

  type ConnId = nat
  type ThreadId = nat

  /** Pool options. No limit on idle connections when `maxIdleConns` is 0, no age limit when a duration is not positive. */
  datatype Config = Config(maxIdleConns: int, maxLifetime: int, maxIdleTime: int)

  /** `isConnExpired`. */
  predicate Expired(config: Config, createdAt: int, lastUsedAt: int, now: int) {
    || (config.maxLifetime > 0 && now - createdAt > config.maxLifetime)
    || (config.maxIdleTime > 0 && now - lastUsedAt > config.maxIdleTime)
  }

  predicate HasRoom(config: Config, idle: nat) {
    config.maxIdleConns == 0 || idle < config.maxIdleConns
  }

  // ---------------------------------------------------------------------------------------------
  // The pool under interleaving
  // ---------------------------------------------------------------------------------------------

  /** Where a goroutine is inside `Get` or a connection's `Close`. `since` is the time `Get` looked at the clock. */
  datatype Pc =
    | Evicting(conn: ConnId, since: int)
    | Resetting(conn: ConnId, since: int)
    | Relocking(since: int)
    | Dialing(since: int)
    | Returning(conn: ConnId)
    | Got(conn: ConnId)
    | Refused
    | Stuck
    | Finished

  /** The connection in the hands of a call that is under way. */
  function InHand(pc: Pc): Option<ConnId> {
    match pc
    case Evicting(c, _) => Some(c)
    case Resetting(c, _) => Some(c)
    case Returning(c) => Some(c)
    case _ => None
  }

  predicate IsOver(pc: Pc) {
    pc.Got? || pc.Refused? || pc.Stuck? || pc.Finished?
  }

  /** `closes` lists the closes of real connections in the order they happen; `mutexHeld` is set once a goroutine has
      returned without unlocking. */
  datatype Pool = Pool(idle: seq<ConnId>, closed: bool, mutexHeld: bool, returned: set<ConnId>,
                       createdAt: map<ConnId, int>, lastUsedAt: map<ConnId, int>, closes: seq<ConnId>,
                       threads: map<ThreadId, Pc>, now: int)

  datatype Event =
    | GetBegin(t: ThreadId)
    | Evict(t: ThreadId)
    | ResetDone(t: ThreadId, ok: bool)
    | Relock(t: ThreadId)
    | Dialed(t: ThreadId, dial: Option<ConnId>)
    | CloseBegin(t: ThreadId, conn: ConnId)
    | CloseEnd(t: ThreadId)
    | Shutdown
    | Tick(time: nat)

  predicate At(p: Pool, t: ThreadId) {
    t in p.threads && !IsOver(p.threads[t])
  }

  predicate MayCall(p: Pool, t: ThreadId) {
    t !in p.threads || IsOver(p.threads[t])
  }

  predicate Enabled(p: Pool, e: Event) {
    match e
    case GetBegin(t) => MayCall(p, t) && !p.mutexHeld
    case Evict(t) => At(p, t) && p.threads[t].Evicting?
    case ResetDone(t, _) => At(p, t) && p.threads[t].Resetting?
    case Relock(t) => At(p, t) && p.threads[t].Relocking? && !p.mutexHeld
    case Dialed(t, c) => At(p, t) && p.threads[t].Dialing? && (c.Some? ==> c.value !in p.createdAt)
    case CloseBegin(t, c) => MayCall(p, t) && c in p.createdAt
    case CloseEnd(t) => At(p, t) && p.threads[t].Returning? && !p.mutexHeld
    case Shutdown => !p.mutexHeld
    case Tick(_) => true
  }

  function SetThread(p: Pool, t: ThreadId, pc: Pc): Pool {
    p.(threads := p.threads[t := pc])
  }

  function CloseReal(p: Pool, c: ConnId): Pool {
    p.(closes := p.closes + [c])
  }

  function Stamp(times: map<ConnId, int>, c: ConnId): int {
    if c in times then times[c] else 0
  }

  /** One turn of the loop in `Get`, up to the next unlock. */
  function TakeNext(config: Config, p: Pool, t: ThreadId, since: int): Pool {
    if p.idle == [] then SetThread(p, t, Dialing(since))
    else
      var c := p.idle[0];
      var expired := Expired(config, Stamp(p.createdAt, c), Stamp(p.lastUsedAt, c), since);
      SetThread(p.(idle := p.idle[1..]), t, if expired then Evicting(c, since) else Resetting(c, since))
  }

  /** The locked part of a connection's `Close`. */
  function GiveBack(config: Config, p: Pool, c: ConnId): Pool {
    if !p.closed && HasRoom(config, |p.idle|) then p.(idle := p.idle + [c]) else CloseReal(p, c)
  }

  function Next(config: Config, p: Pool, e: Event): Pool
    requires Enabled(p, e)
  {
    match e
    case GetBegin(t) => if p.closed then SetThread(p, t, Refused) else TakeNext(config, p, t, p.now)
    case Evict(t) => CloseReal(SetThread(p, t, Relocking(p.threads[t].since)), p.threads[t].conn)
    case ResetDone(t, ok) =>
      var c := p.threads[t].conn;
      if ok then SetThread(p, t, Got(c)).(returned := p.returned - {c})
      else CloseReal(SetThread(p, t, Relocking(p.threads[t].since)), c)
    case Relock(t) =>
      if p.closed then SetThread(p, t, Stuck).(mutexHeld := true)
      else TakeNext(config, p, t, p.threads[t].since)
    case Dialed(t, conn) =>
      (match conn
       case None => SetThread(p, t, Finished)
       case Some(c) =>
         SetThread(p, t, Got(c)).(createdAt := p.createdAt[c := p.threads[t].since],
                                  lastUsedAt := p.lastUsedAt[c := p.threads[t].since]))
    case CloseBegin(t, c) =>
      if c in p.returned then SetThread(p, t, Finished)
      else SetThread(p, t, Returning(c)).(returned := p.returned + {c}, lastUsedAt := p.lastUsedAt[c := p.now])
    case CloseEnd(t) => GiveBack(config, SetThread(p, t, Finished), p.threads[t].conn)
    case Shutdown => if p.closed then p else p.(closed := true, closes := p.closes + p.idle, idle := [])
    case Tick(n) => p.(now := p.now + n)
  }

  // ---------------------------------------------------------------------------------------------
  // Conservation
  // ---------------------------------------------------------------------------------------------

  predicate NoRepeats(s: seq<ConnId>) {
    forall i, j :: 0 <= i < j < |s| ==> s[i] != s[j]
  }

  ghost predicate InTransit(threads: map<ThreadId, Pc>, c: ConnId) {
    exists t :: t in threads && InHand(threads[t]) == Some(c)
  }

  predicate CheckedOut(p: Pool, c: ConnId) {
    c in p.createdAt && c !in p.returned
  }

  /** No two calls have the same connection in their hands. */
  predicate OneHandEach(threads: map<ThreadId, Pc>) {
    forall t, u :: t in threads && u in threads && t != u && InHand(threads[t]).Some? ==>
      InHand(threads[t]) != InHand(threads[u])
  }

  /** Idle, in transit and closed are places apart, and together they hold what has been returned. */
  ghost predicate Places(idle: seq<ConnId>, closes: seq<ConnId>, returned: set<ConnId>, threads: map<ThreadId, Pc>) {
    && NoRepeats(idle) && NoRepeats(closes) && OneHandEach(threads)
    && (forall c :: c in idle ==> c in returned && c !in closes && !InTransit(threads, c))
    && (forall c :: c in closes ==> c in returned && !InTransit(threads, c))
    && (forall c :: InTransit(threads, c) ==> c in returned)
    && (forall c :: c in returned ==> c in idle || c in closes || InTransit(threads, c))
  }

  ghost predicate Inv(config: Config, p: Pool) {
    && Places(p.idle, p.closes, p.returned, p.threads)
    && p.returned <= p.createdAt.Keys
    && (config.maxIdleConns > 0 ==> |p.idle| <= config.maxIdleConns)
    && (p.closed ==> p.idle == [])
    && (p.mutexHeld ==> p.closed)
  }

  /** A connection comes to or leaves the hands of `t`, who had none or it. */
  lemma HandsChange(threads: map<ThreadId, Pc>, t: ThreadId, pc: Pc, c: ConnId)
    ensures InTransit(threads[t := pc], c) <==>
              InHand(pc) == Some(c) || exists u :: u in threads && u != t && InHand(threads[u]) == Some(c)
  {
    var after := threads[t := pc];
    if InHand(pc) == Some(c) {
      assert t in after && InHand(after[t]) == Some(c);
    }
    if u :| u in threads && u != t && InHand(threads[u]) == Some(c) {
      assert u in after && InHand(after[u]) == Some(c);
    }
  }

  ghost predicate FreeHands(threads: map<ThreadId, Pc>, t: ThreadId) {
    t in threads ==> InHand(threads[t]) == None
  }

  /** Nothing moves when a call that has nothing in its hands goes on without taking anything. */
  lemma PlacesIdleStep(p: Pool, t: ThreadId, pc: Pc)
    requires Places(p.idle, p.closes, p.returned, p.threads) && FreeHands(p.threads, t) && InHand(pc) == None
    ensures Places(p.idle, p.closes, p.returned, p.threads[t := pc])
  {
    forall c: ConnId ensures InTransit(p.threads[t := pc], c) <==> InTransit(p.threads, c) {
      HandsChange(p.threads, t, pc, c);
    }
  }

  lemma PlacesTake(p: Pool, t: ThreadId, pc: Pc)
    requires Places(p.idle, p.closes, p.returned, p.threads) && FreeHands(p.threads, t)
    requires p.idle != [] && InHand(pc) == Some(p.idle[0])
    ensures Places(p.idle[1..], p.closes, p.returned, p.threads[t := pc])
  {
    forall c: ConnId ensures InTransit(p.threads[t := pc], c) <==> InTransit(p.threads, c) || c == p.idle[0] {
      HandsChange(p.threads, t, pc, c);
    }
    assert p.idle[0] in p.idle && p.idle[0] !in p.idle[1..];
    assert forall c :: c in p.idle[1..] ==> c in p.idle;
    assert p.idle == [p.idle[0]] + p.idle[1..];
  }

  /** A connection leaves the hands of `t`; where to is for the caller to say. */
  lemma LeavesHands(threads: map<ThreadId, Pc>, t: ThreadId, pc: Pc, c: ConnId)
    requires OneHandEach(threads) && t in threads && InHand(threads[t]).Some? && InHand(pc) == None
    ensures InTransit(threads[t := pc], c) <==> InTransit(threads, c) && InHand(threads[t]) != Some(c)
  {
    HandsChange(threads, t, pc, c);
  }

  lemma PlacesToIdle(p: Pool, t: ThreadId, pc: Pc)
    requires Places(p.idle, p.closes, p.returned, p.threads)
    requires t in p.threads && InHand(p.threads[t]).Some? && InHand(pc) == None
    ensures Places(p.idle + [InHand(p.threads[t]).value], p.closes, p.returned, p.threads[t := pc])
  {
    assert InTransit(p.threads, InHand(p.threads[t]).value);
    forall c: ConnId ensures InTransit(p.threads[t := pc], c) <==> InTransit(p.threads, c) && InHand(p.threads[t]) != Some(c) {
      LeavesHands(p.threads, t, pc, c);
    }
  }

  lemma PlacesToClosed(p: Pool, t: ThreadId, pc: Pc)
    requires Places(p.idle, p.closes, p.returned, p.threads)
    requires t in p.threads && InHand(p.threads[t]).Some? && InHand(pc) == None
    ensures Places(p.idle, p.closes + [InHand(p.threads[t]).value], p.returned, p.threads[t := pc])
  {
    assert InTransit(p.threads, InHand(p.threads[t]).value);
    forall c: ConnId ensures InTransit(p.threads[t := pc], c) <==> InTransit(p.threads, c) && InHand(p.threads[t]) != Some(c) {
      LeavesHands(p.threads, t, pc, c);
    }
  }

  lemma PlacesToCaller(p: Pool, t: ThreadId, pc: Pc)
    requires Places(p.idle, p.closes, p.returned, p.threads)
    requires t in p.threads && InHand(p.threads[t]).Some? && InHand(pc) == None
    ensures Places(p.idle, p.closes, p.returned - {InHand(p.threads[t]).value}, p.threads[t := pc])
  {
    assert InTransit(p.threads, InHand(p.threads[t]).value);
    forall c: ConnId ensures InTransit(p.threads[t := pc], c) <==> InTransit(p.threads, c) && InHand(p.threads[t]) != Some(c) {
      LeavesHands(p.threads, t, pc, c);
    }
  }

  lemma PlacesFromCaller(p: Pool, t: ThreadId, pc: Pc)
    requires Places(p.idle, p.closes, p.returned, p.threads) && FreeHands(p.threads, t)
    requires InHand(pc).Some? && InHand(pc).value !in p.returned
    ensures Places(p.idle, p.closes, p.returned + {InHand(pc).value}, p.threads[t := pc])
  {
    forall c: ConnId ensures InTransit(p.threads[t := pc], c) <==> InTransit(p.threads, c) || InHand(pc) == Some(c) {
      HandsChange(p.threads, t, pc, c);
    }
  }

  lemma PlacesShutdown(p: Pool)
    requires Places(p.idle, p.closes, p.returned, p.threads)
    ensures Places([], p.closes + p.idle, p.returned, p.threads)
  {
    assert forall i, j :: 0 <= i < |p.closes| && 0 <= j < |p.idle| ==> p.closes[i] != p.idle[j] by {
      assert forall j :: 0 <= j < |p.idle| ==> p.idle[j] in p.idle;
    }
  }

  lemma TakeKeeps(config: Config, p: Pool, t: ThreadId, since: int)
    requires Inv(config, p) && FreeHands(p.threads, t)
    ensures Inv(config, TakeNext(config, p, t, since))
  {
    if p.idle == [] {
      PlacesIdleStep(p, t, Dialing(since));
    } else {
      var c := p.idle[0];
      PlacesTake(p, t, if Expired(config, Stamp(p.createdAt, c), Stamp(p.lastUsedAt, c), since)
                       then Evicting(c, since) else Resetting(c, since));
    }
  }

  lemma GiveBackKeeps(config: Config, p: Pool, t: ThreadId)
    requires Inv(config, p) && t in p.threads && p.threads[t].Returning?
    ensures Inv(config, GiveBack(config, SetThread(p, t, Finished), p.threads[t].conn))
  {
    PlacesToIdle(p, t, Finished);
    PlacesToClosed(p, t, Finished);
  }

  /** Every step keeps every connection in exactly one place. */
  lemma InvKept(config: Config, p: Pool, e: Event)
    requires Inv(config, p) && Enabled(p, e)
    ensures Inv(config, Next(config, p, e))
  {
    match e {
      case GetBegin(t) =>
        if p.closed { PlacesIdleStep(p, t, Refused); } else { TakeKeeps(config, p, t, p.now); }
      case Evict(t) => PlacesToClosed(p, t, Relocking(p.threads[t].since));
      case ResetDone(t, ok) =>
        if ok { PlacesToCaller(p, t, Got(p.threads[t].conn)); }
        else { PlacesToClosed(p, t, Relocking(p.threads[t].since)); }
      case Relock(t) =>
        if p.closed { PlacesIdleStep(p, t, Stuck); } else { TakeKeeps(config, p, t, p.threads[t].since); }
      case Dialed(t, dial) => PlacesIdleStep(p, t, if dial.Some? then Got(dial.value) else Finished);
      case CloseBegin(t, c) =>
        if c in p.returned { PlacesIdleStep(p, t, Finished); } else { PlacesFromCaller(p, t, Returning(c)); }
      case CloseEnd(t) => GiveBackKeeps(config, p, t);
      case Shutdown => PlacesShutdown(p);
      case Tick(_) =>
    }
  }

  // ---------------------------------------------------------------------------------------------
  // Runs
  // ---------------------------------------------------------------------------------------------

  predicate Init(p: Pool) {
    && p.idle == [] && !p.closed && !p.mutexHeld && p.returned == {} && p.createdAt == map[] && p.lastUsedAt == map[]
    && p.closes == [] && p.threads == map[]
  }

  ghost predicate IsRun(config: Config, trace: seq<Pool>, events: seq<Event>) {
    && |trace| == |events| + 1 && Init(trace[0])
    && forall i :: 0 <= i < |events| ==>
         Enabled(trace[i], events[i]) && trace[i + 1] == Next(config, trace[i], events[i])
  }

  lemma {:induction false} RunInv(config: Config, trace: seq<Pool>, events: seq<Event>, i: nat)
    requires IsRun(config, trace, events) && i < |trace|
    ensures Inv(config, trace[i])
  {
    if i > 0 {
      RunInv(config, trace, events, i - 1);
      InvKept(config, trace[i - 1], events[i - 1]);
    }
  }

  /** In every run, every connection ever opened is in exactly one of four places: idle (listed once), checked out, in
      the hands of one call, or closed (once). */
  lemma Conservation(config: Config, trace: seq<Pool>, events: seq<Event>, i: nat, c: ConnId)
    requires IsRun(config, trace, events) && i < |trace| && c in trace[i].createdAt
    ensures var p := trace[i];
            var places := [c in p.idle, CheckedOut(p, c), InTransit(p.threads, c), c in p.closes];
            exists k :: 0 <= k < 4 && places[k] && forall j :: 0 <= j < 4 && j != k ==> !places[j]
    ensures NoRepeats(trace[i].idle) && NoRepeats(trace[i].closes) && OneHandEach(trace[i].threads)
  {
    RunInv(config, trace, events, i);
    var p := trace[i];
    var places := [c in p.idle, CheckedOut(p, c), InTransit(p.threads, c), c in p.closes];
    assert places[0] || places[1] || places[2] || places[3];
    var k := if places[0] then 0 else if places[1] then 1 else if places[2] then 2 else 3;
    assert places[k];
  }

  /** Idle connections stay within a positive limit, and a closed pool has none; once nothing is checked out or in
      anybody's hands, a closed pool has closed everything it opened, each once. */
  lemma ClosedPoolClosesAll(config: Config, trace: seq<Pool>, events: seq<Event>, i: nat)
    requires IsRun(config, trace, events) && i < |trace|
    ensures config.maxIdleConns > 0 ==> |trace[i].idle| <= config.maxIdleConns
    ensures trace[i].closed ==> trace[i].idle == []
    ensures trace[i].closed && (forall c :: c in trace[i].createdAt ==> !CheckedOut(trace[i], c))
            && (forall t :: t in trace[i].threads ==> IsOver(trace[i].threads[t]))
            ==> forall c :: c in trace[i].createdAt <==> c in trace[i].closes
  {
    RunInv(config, trace, events, i);
  }

  /** A connection `Get` hands out was in nobody's hands, is not closed, and nobody else has it checked out. */
  lemma IssuedConnIsFresh(config: Config, trace: seq<Pool>, events: seq<Event>, i: nat, t: ThreadId)
    requires IsRun(config, trace, events) && i < |events|
    requires (events[i].ResetDone? || events[i].Dialed?) && events[i].t == t && trace[i + 1].threads[t].Got?
    ensures var c := trace[i + 1].threads[t].conn;
            !CheckedOut(trace[i], c) && CheckedOut(trace[i + 1], c) && c !in trace[i + 1].closes
  {
    RunInv(config, trace, events, i);
    RunInv(config, trace, events, i + 1);
    var p := trace[i];
    if events[i].ResetDone? {
      assert InTransit(p.threads, p.threads[t].conn);
    }
  }

  // ---------------------------------------------------------------------------------------------
  // The lock
  // ---------------------------------------------------------------------------------------------

  lemma LockStep(config: Config, p: Pool, e: Event)
    requires Enabled(p, e)
    ensures Next(config, p, e).mutexHeld <==> p.mutexHeld || (e.Relock? && p.closed)
  {
  }

  /** In every run: the lock is held for good if and only if some `Get` came back for it after closing an unusable
      connection, and found that the pool had been closed meanwhile. */
  lemma {:induction false} LockIsLeftHeldExactly(config: Config, trace: seq<Pool>, events: seq<Event>, n: nat)
    requires IsRun(config, trace, events) && n < |trace|
    ensures trace[n].mutexHeld <==> exists i :: 0 <= i < n && events[i].Relock? && trace[i].closed
  {
    if n > 0 {
      LockIsLeftHeldExactly(config, trace, events, n - 1);
      LockStep(config, trace[n - 1], events[n - 1]);
    }
  }

  predicate NeedsLock(e: Event) {
    e.GetBegin? || e.Relock? || e.CloseEnd? || e.Shutdown?
  }

  /** From then on nobody gets the lock: no `Get` starts, no connection's `Close` finishes, and what they hold stays
      where it is. */
  lemma {:induction false} LockIsNeverFree(config: Config, trace: seq<Pool>, events: seq<Event>, i: nat, j: nat)
    requires IsRun(config, trace, events) && i <= j < |trace| && trace[i].mutexHeld
    ensures trace[j].mutexHeld
    ensures j < |events| ==> !NeedsLock(events[j])
    ensures forall t :: t in trace[i].threads && trace[i].threads[t].Returning? ==>
              t in trace[j].threads && trace[j].threads[t] == trace[i].threads[t]
  {
    if i < j {
      LockIsNeverFree(config, trace, events, i, j - 1);
    }
  }

  // ---------------------------------------------------------------------------------------------
  // It does happen
  // ---------------------------------------------------------------------------------------------

  const ONE_IDLE := Config(1, 0, 0)

  /** A connection is opened and given back; the next `Get` cannot reset it and closes it, and meanwhile the pool is
      closed. */
  function LockingEvent(i: nat): Event {
    match i
    case 0 => GetBegin(1)
    case 1 => Dialed(1, Some(5))
    case 2 => CloseBegin(1, 5)
    case 3 => CloseEnd(1)
    case 4 => GetBegin(2)
    case 5 => ResetDone(2, false)
    case 6 => Shutdown
    case _ => Relock(2)
  }

  function LockingState(i: nat): Pool {
    var empty := Pool([], false, false, {}, map[], map[], [], map[], 0);
    if i == 0 then empty
    else if i == 1 then empty.(threads := map[1 := Dialing(0)])
    else
      var dialed := empty.(createdAt := map[5 := 0], lastUsedAt := map[5 := 0], threads := map[1 := Got(5)]);
      if i == 2 then dialed
      else
        var back := dialed.(returned := {5}, threads := map[1 := Finished]);
        match i
        case 3 => back.(threads := map[1 := Returning(5)])
        case 4 => back.(idle := [5])
        case 5 => back.(threads := map[1 := Finished, 2 := Resetting(5, 0)])
        case 6 => back.(threads := map[1 := Finished, 2 := Relocking(0)], closes := [5])
        case 7 => back.(threads := map[1 := Finished, 2 := Relocking(0)], closes := [5], closed := true)
        case _ => back.(threads := map[1 := Finished, 2 := Stuck], closes := [5], closed := true, mutexHeld := true)
  }

  lemma LockingStep(i: nat)
    requires i < 8
    ensures Enabled(LockingState(i), LockingEvent(i))
    ensures Next(ONE_IDLE, LockingState(i), LockingEvent(i)) == LockingState(i + 1)
  {
    match i {
      case 0 =>
      case 1 =>
      case 2 =>
      case 3 =>
      case 4 =>
      case 5 =>
      case 6 =>
      case _ => assert i == 7;
    }
  }

  function LockingTrace(): (trace: seq<Pool>)
    ensures |trace| == 9 && forall i :: 0 <= i < 9 ==> trace[i] == LockingState(i)
  {
    seq(9, (i: nat) => LockingState(i))
  }

  function LockingEvents(): (events: seq<Event>)
    ensures |events| == 8 && forall i :: 0 <= i < 8 ==> events[i] == LockingEvent(i)
  {
    seq(8, (i: nat) => LockingEvent(i))
  }

  /** A run that ends with the lock held, and however it goes on, nobody gets the lock again. */
  lemma LockIsLeftHeld(trace: seq<Pool>, events: seq<Event>, n: nat)
    requires IsRun(ONE_IDLE, trace, events) && LockingTrace() <= trace && LockingEvents() <= events && 8 <= n < |trace|
    ensures IsRun(ONE_IDLE, LockingTrace(), LockingEvents()) && trace[n].mutexHeld
    ensures n < |events| ==> !NeedsLock(events[n])
  {
    forall i | 0 <= i < 8 ensures Enabled(LockingState(i), LockingEvent(i))
                                  && Next(ONE_IDLE, LockingState(i), LockingEvent(i)) == LockingState(i + 1) {
      LockingStep(i);
    }
    assert trace[8] == LockingTrace()[8];
    LockIsNeverFree(ONE_IDLE, trace, events, 8, n);
  }
}
