/** The outside world as the failover and initial-connection loops see it: a clock, a cluster that answers whatever it
    likes, and a ledger of every connection. */
module Network {
  import opened Strings
  import opened Topology

  type ConnId = nat

  datatype Attempt = Connected(conn: ConnId) | Failed(loginError: bool)

  /** A connection and the host it leads to, with the role the host was found to have. */
  datatype Candidate = Candidate(conn: ConnId, host: HostInfo)

  class Network {
    var now: int
    /** The hosts the plugin service knows. */
    var hosts: Hosts
    /** Every connection ever opened, and the closed ones. */
    var openedConns: set<ConnId>
    var closedConns: set<ConnId>
    /** What each connection said of its role when it was last asked. */
    var roles: map<ConnId, Role>
    /** The hosts dialed so far, in order. */
    var dialed: seq<HostInfo>

    /** The name of the next connection. */
    var next: ConnId

    /** Only connections that were opened can be closed, and names are not used twice. */
    ghost predicate Valid()
      reads this
    {
      closedConns <= openedConns && forall c :: c in openedConns ==> c < next
    }

    /** The clock moves on from one look to the next. */
    method Now() returns (t: int)
      modifies `now
      ensures t == now > old(now)
    {
      t :| t > now;
      now := t;
    }

    method Dial() returns (a: Attempt)
      requires Valid()
      modifies `openedConns, `next
      ensures Valid()
      ensures a.Connected? ==> a.conn !in old(openedConns) && openedConns == old(openedConns) + {a.conn}
      ensures a.Failed? ==> openedConns == old(openedConns)
    {
      var loginError: bool := *;
      var works: bool := *;
      if !works { return Failed(loginError); }
      openedConns, next := openedConns + {next}, next + 1;
      return Connected(next - 1);
    }

    /** `Connect` to a host: a connection, or an error and none. */
    method Connect(host: HostInfo) returns (a: Attempt)
      requires Valid()
      modifies `openedConns, `next, `dialed
      ensures Valid() && dialed == old(dialed) + [host]
      ensures a.Connected? ==> a.conn !in old(openedConns) && openedConns == old(openedConns) + {a.conn}
      ensures a.Failed? ==> openedConns == old(openedConns)
    {
      dialed := dialed + [host];
      a := Dial();
    }

    method Close(c: ConnId)
      requires Valid() && c in openedConns
      modifies `closedConns
      ensures Valid() && closedConns == old(closedConns) + {c}
    {
      closedConns := closedConns + {c};
    }

    method GetHostRole(c: ConnId) returns (role: Role)
      modifies `roles
      ensures roles == old(roles)[c := role]
    {
      var answer: Role := *;
      roles := roles[c := answer];
      return answer;
    }

    /** `IdentifyConnection`: the host a connection leads to, if that can be told, with its role. */
    method IdentifyConnection(c: ConnId) returns (ok: bool, host: Option<HostInfo>)
      modifies `roles
      ensures !ok ==> host == None
      ensures roles == if host.Some? then old(roles)[c := host.value.role] else old(roles)
    {
      var answer: Option<HostInfo> := *;
      ok := *;
      host := if ok then answer else None;
      if host.Some? { roles := roles[c := host.value.role]; }
    }

    /** A refresh may bring any topology, or fail. */
    method Refresh() returns (ok: bool)
      modifies `hosts
    {
      hosts := *;
      ok := *;
    }

    /** The hosts that may be used: all that are known, or those of them that are allowed and not blocked. */
    method GetHosts() returns (list: Hosts)
      ensures forall h :: h in list ==> h in hosts
    {
      list := [];
      for i := 0 to |hosts|
        invariant forall h :: h in list ==> h in hosts
      {
        var permitted: bool := *;
        if permitted { list := list + [hosts[i]]; }
      }
    }

    /** A host selector that returns a member of the list it is given, or an error. */
    method GetHostInfoByStrategy(list: Hosts) returns (host: Option<HostInfo>)
      ensures host.Some? ==> host.value in list
    {
      var found: bool := *;
      if !found || list == [] { return None; }
      var i: nat := *;
      return Some(list[i % |list|]);
    }

    /** `SetCurrentConnection`, or its error. */
    method SetCurrentConnection(c: ConnId) returns (ok: bool)
    {
      ok := *;
    }
  }

  /** Of the connections opened meanwhile, the one kept is open and all others are closed; older ones are left alone. */
  twostate predicate OnlyKept(network: Network, kept: Option<ConnId>)
    reads network
  {
    && old(network.openedConns) <= network.openedConns && old(network.closedConns) <= network.closedConns
    && network.closedConns - old(network.closedConns) <= network.openedConns - old(network.openedConns)
    && network.openedConns - old(network.openedConns) - network.closedConns
       == if kept.Some? then {kept.value} else {}
  }
}
