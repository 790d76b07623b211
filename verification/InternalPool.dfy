/** The internal connection pool as the code has it: pooled connections, the pool, and their methods. One call runs at
    a time here, except that the pool may be closed in the windows in which `Get` has let go of the lock. */
module InternalPool {
  import opened Strings
  import opened ConnPool

  class PooledConn {
    const pool: InternalConnPool
    const conn: ConnId
    const createdAt: int
    var lastUsedAt: int
    var returned: bool

    constructor (pool: InternalConnPool, conn: ConnId, now: int)
      ensures this.pool == pool && this.conn == conn && createdAt == now && lastUsedAt == now && !returned
    {
      this.pool, this.conn, createdAt, lastUsedAt, returned := pool, conn, now, now, false;
    }

    /** Still young enough, and its session could be reset. */
    predicate Reusable(config: Config, now: int, healthy: set<ConnId>)
      reads this
    {
      !Expired(config, createdAt, lastUsedAt, now) && conn in healthy
    }

    /** Giving a connection back: to the end of the idle list when the pool is open and has room, and closed for real
        otherwise, as in the step system; a second call does nothing. */
    method Close(now: int)
      requires pool.Valid() && !pool.mutexHeld
      modifies this, pool
      ensures pool.Valid() && pool.closed == old(pool.closed) && !pool.mutexHeld && returned
      ensures old(returned) ==> pool.idleConns == old(pool.idleConns) && pool.closes == old(pool.closes)
      ensures !old(returned) ==>
                var keep := !pool.closed && HasRoom(pool.config, |old(pool.idleConns)|);
                && lastUsedAt == now
                && pool.idleConns == old(pool.idleConns) + (if keep then [this] else [])
                && pool.closes == old(pool.closes) + (if keep then [] else [this])
      ensures pool.AsPool() == if old(returned) then old(pool.AsPool()) else GiveBack(pool.config, old(pool.AsPool()), conn)
    {
      IdsAppend(pool.idleConns, [this]);
      IdsAppend(pool.closes, [this]);
      if returned { return; }
      returned := true;
      lastUsedAt := now;
      if pool.closed {
        pool.closes := pool.closes + [this];
        return;
      }
      if pool.config.maxIdleConns == 0 || |pool.idleConns| < pool.config.maxIdleConns {
        pool.idleConns := pool.idleConns + [this];
        return;
      }
      pool.closes := pool.closes + [this];
    }
  }

  predicate Distinct(conns: seq<PooledConn>) {
    forall i, j :: 0 <= i < j < |conns| ==> conns[i] != conns[j]
  }

  /** The loop of `Get` over `conns` ends first at `k`, with a connection that can be reused or during whose eviction
      the pool is closed; or nowhere, `k` being past the end. */
  ghost predicate EndsFirstAt(config: Config, conns: seq<PooledConn>, now: int, healthy: set<ConnId>,
                              closedDuring: set<ConnId>, k: nat)
    reads conns
  {
    && k <= |conns|
    && (forall i :: 0 <= i < k ==> !conns[i].Reusable(config, now, healthy) && conns[i].conn !in closedDuring)
    && (k < |conns| ==> conns[k].Reusable(config, now, healthy) || conns[k].conn in closedDuring)
  }

  function Ids(conns: seq<PooledConn>): (ids: seq<ConnId>)
    ensures |ids| == |conns| && forall i :: 0 <= i < |conns| ==> ids[i] == conns[i].conn
  {
    seq(|conns|, i requires 0 <= i < |conns| => conns[i].conn)
  }

  lemma IdsAppend(a: seq<PooledConn>, b: seq<PooledConn>)
    ensures Ids(a + b) == Ids(a) + Ids(b)
    ensures |b| == 1 ==> Ids(b) == [b[0].conn]
  {
  }

  datatype GetResult = Ok(pooled: PooledConn) | BadConn | DialError

  class InternalConnPool {
    const config: Config
    var idleConns: seq<PooledConn>
    var closed: bool
    var mutexHeld: bool
    /** Whose real connections have been closed so far, in order. */
    var closes: seq<PooledConn>

    constructor (config: Config)
      ensures Valid() && this.config == config && idleConns == [] && !closed && !mutexHeld && closes == []
    {
      this.config, idleConns, closed, mutexHeld, closes := config, [], false, false, [];
    }

    /** Idle connections are the pool's own, are marked as returned, and are listed once; the limit holds; a closed
        pool has none. */
    ghost predicate Valid()
      reads `idleConns, `closed, idleConns
    {
      && (forall pc :: pc in idleConns ==> pc.pool == this && pc.returned)
      && Distinct(idleConns)
      && (config.maxIdleConns > 0 ==> |idleConns| <= config.maxIdleConns)
      && (closed ==> idleConns == [])
    }

    /** What the step system of module `ConnPool` looks at, apart from the calls under way. */
    function AsPool(): Pool
      reads this
    {
      Pool(Ids(idleConns), closed, mutexHeld, {}, map[], map[], Ids(closes), map[], 0)
    }

    /** Closing the pool closes every idle connection, once. It is the step of the step system. */
    method Close()
      requires Valid() && !mutexHeld
      modifies `idleConns, `closed, `closes
      ensures Valid() && closed && idleConns == []
      ensures closes == old(closes) + (if old(closed) then [] else old(idleConns))
      ensures AsPool() == Next(config, old(AsPool()), Shutdown)
    {
      IdsAppend(closes, idleConns);
      if closed { return; }
      closed := true;
      for i := 0 to |idleConns|
        invariant closed && idleConns == old(idleConns) && closes == old(closes) + idleConns[..i]
      {
        closes := closes + [idleConns[i]];
      }
      idleConns := [];
    }

    /** A window of `Get`: it lets go of the lock, closes a real connection, and takes the lock again. Meanwhile
        somebody may close the pool. */
    method Evict(pc: PooledConn, closing: bool)
      requires Valid() && mutexHeld && !closed
      modifies `idleConns, `closed, `mutexHeld, `closes
      ensures Valid() && mutexHeld && closed == closing
      ensures idleConns == if closing then [] else old(idleConns)
      ensures closes == old(closes) + [pc] + (if closing then old(idleConns) else [])
    {
      mutexHeld := false;
      closes := closes + [pc];
      if closing { Close(); }
      mutexHeld := true;
    }

    /** The loop of `Get`, entered with the lock held: idle connections are tried first come first served; those that
        are too old or cannot be reset are closed, and the first good one is handed out. If the pool is closed while
        one is being closed, the loop gives up and leaves the lock held. `healthy` are the connections whose session
        can be reset, `closedDuring` those in whose eviction somebody closes the pool. */
    method TakeIdle(now: int, healthy: set<ConnId>, closedDuring: set<ConnId>)
      returns (r: Option<GetResult>, ghost k: nat)
      requires Valid() && mutexHeld && !closed
      modifies this, idleConns
      ensures Valid() && old(EndsFirstAt(config, idleConns, now, healthy, closedDuring, k))
      ensures k == |old(idleConns)| ==>
                r == None && !closed && mutexHeld && idleConns == [] && closes == old(closes) + old(idleConns)
      ensures k < |old(idleConns)| && old(idleConns[k].Reusable(config, now, healthy)) ==>
                && r == Some(Ok(old(idleConns)[k])) && !old(idleConns)[k].returned && !closed && !mutexHeld
                && idleConns == old(idleConns)[k + 1..] && closes == old(closes) + old(idleConns)[..k]
      ensures k < |old(idleConns)| && !old(idleConns[k].Reusable(config, now, healthy)) ==>
                && r == Some(BadConn) && closed && mutexHeld && idleConns == []
                && closes == old(closes) + old(idleConns)
    {
      ghost var idle := idleConns;
      k := 0;
      while |idleConns| > 0
        invariant k <= |idle| && mutexHeld && !closed && Valid() && idleConns == idle[k..]
        invariant forall pc :: pc in idle ==> unchanged(pc)
        invariant forall i :: 0 <= i < k ==>
                    !old(idleConns[i].Reusable(config, now, healthy)) && idle[i].conn !in closedDuring
        invariant closes == old(closes) + idle[..k]
        decreases |idleConns|
      {
        var pc := idleConns[0];
        idleConns := idleConns[1..];
        assert idle[k..][1..] == idle[k + 1..];
        assert pc == idle[k] && pc in idle;
        if !Expired(config, pc.createdAt, pc.lastUsedAt, now) && pc.conn in healthy {
          mutexHeld := false;
          pc.returned := false;
          return Some(Ok(pc)), k;
        }
        Evict(pc, pc.conn in closedDuring);
        if closed { return Some(BadConn), k; }
        k := k + 1;
      }
      return None, k;
    }

    /** `Get`: a reusable idle connection, or else what dialing brings. */
    method Get(now: int, healthy: set<ConnId>, closedDuring: set<ConnId>, dial: Option<ConnId>)
      returns (r: GetResult, ghost k: nat)
      requires Valid() && !mutexHeld
      modifies this, idleConns
      ensures Valid()
      ensures old(closed) ==> r == BadConn && closed && !mutexHeld && closes == old(closes)
      ensures !old(closed) ==> old(EndsFirstAt(config, idleConns, now, healthy, closedDuring, k))
      ensures !old(closed) && k == |old(idleConns)| ==>
                && !closed && !mutexHeld && idleConns == [] && closes == old(closes) + old(idleConns)
                && (if dial.Some? then r.Ok? && fresh(r.pooled) && r.pooled.pool == this && r.pooled.conn == dial.value
                                       && r.pooled.createdAt == r.pooled.lastUsedAt == now && !r.pooled.returned
                    else r == DialError)
      ensures !old(closed) && k < |old(idleConns)| && old(idleConns[k].Reusable(config, now, healthy)) ==>
                && r == Ok(old(idleConns)[k]) && !old(idleConns)[k].returned && !closed && !mutexHeld
                && idleConns == old(idleConns)[k + 1..] && closes == old(closes) + old(idleConns)[..k]
      ensures !old(closed) && k < |old(idleConns)| && !old(idleConns[k].Reusable(config, now, healthy)) ==>
                && r == BadConn && closed && mutexHeld && idleConns == []
                && closes == old(closes) + old(idleConns)
    {
      mutexHeld := true;
      k := 0;
      if closed {
        mutexHeld := false;
        return BadConn, k;
      }
      var taken;
      taken, k := TakeIdle(now, healthy, closedDuring);
      if taken.Some? { return taken.value, k; }
      mutexHeld := false;
      if dial == None { return DialError, k; }
      var pooled := new PooledConn(this, dial.value, now);
      return Ok(pooled), k;
    }
  }
}
