/** Failover in global databases (`gdb_failover_plugin.go`): which hosts a mode allows, and the loop that finds one. */
module GdbFailover {
  import opened Strings
  import opened SqlText
  import opened Sorting
  import opened Topology
  import opened Network
  import opened Slices
  import opened Failover

  datatype Mode = StrictWriter | StrictHomeReader | StrictOutOfHomeReader | StrictAnyReader
                | HomeReaderOrWriter | OutOfHomeReaderOrWriter | AnyReaderOrWriter

  /** `strings.EqualFold` on ASCII. */
  predicate EqualFold(a: string, b: string) {
    ToLower(a) == ToLower(b)
  }

  /** The hosts a mode allows; `home` tells whether a host name is in the home region. */
  predicate Allowed(mode: Mode, home: string -> bool, h: HostInfo) {
    match mode
    case StrictWriter => h.role == Writer
    case StrictHomeReader => h.role == Reader && home(h.host)
    case StrictOutOfHomeReader => h.role == Reader && !home(h.host)
    case StrictAnyReader => h.role == Reader
    case HomeReaderOrWriter => h.role == Writer || (h.role == Reader && home(h.host))
    case OutOfHomeReaderOrWriter => h.role == Writer || (h.role == Reader && !home(h.host))
    case AnyReaderOrWriter => true
  }

  /** The role a mode insists on. */
  function VerifyRole(mode: Mode): Option<Role> {
    match mode
    case StrictWriter => Some(Writer)
    case StrictHomeReader => Some(Reader)
    case StrictOutOfHomeReader => Some(Reader)
    case StrictAnyReader => Some(Reader)
    case _ => None
  }

  function AllowedHosts(mode: Mode, home: string -> bool, hosts: Hosts): (r: Hosts)
    ensures forall h :: h in r <==> h in hosts && Allowed(mode, home, h)
  {
    if hosts == [] then []
    else (if Allowed(mode, home, hosts[0]) then [hosts[0]] else []) + AllowedHosts(mode, home, hosts[1..])
  }

  // ---------------------------------------------------------------------------------------------
  // Dialing each host and port once
  // ---------------------------------------------------------------------------------------------

  function Ports(hosts: Hosts): (r: seq<string>)
    ensures |r| == |hosts| && forall i :: 0 <= i < |hosts| ==> r[i] == HostAndPort(hosts[i])
  {
    seq(|hosts|, i requires 0 <= i < |hosts| => HostAndPort(hosts[i]))
  }

  /** No host and port was dialed more often than it is listed. */
  ghost predicate DialedAsListed(dialed: Hosts, listed: Hosts) {
    multiset(Ports(dialed)) <= multiset(Ports(listed))
  }

  /** So with different hosts and ports in the list, each was dialed at most once. */
  lemma DialedOnce(dialed: Hosts, listed: Hosts)
    requires DialedAsListed(dialed, listed) && NoDuplicates(Ports(listed))
    ensures NoDuplicates(Ports(dialed))
  {
    var p := Ports(dialed);
    forall i, j | 0 <= i < j < |p| ensures p[i] != p[j] {
      OccursOnce(Ports(listed), p[i]);
      OccursTwice(p, i, j);
    }
  }

  predicate SamePort(a: HostInfo, b: HostInfo) {
    HostAndPort(a) == HostAndPort(b)
  }

  /** What has been dialed and what is left make up what was listed. */
  ghost predicate Account(dialed: Hosts, left: Hosts, listed: Hosts) {
    multiset(Ports(dialed)) + multiset(Ports(left)) == multiset(Ports(listed))
  }

  lemma PortsAppend(hosts: Hosts, h: HostInfo)
    ensures multiset(Ports(hosts + [h])) == multiset(Ports(hosts)) + multiset{HostAndPort(h)}
  {
    assert Ports(hosts + [h]) == Ports(hosts) + [HostAndPort(h)];
  }

  lemma PortsWithout(hosts: Hosts, i: nat)
    requires i < |hosts|
    ensures multiset(Ports(hosts)) == multiset(Ports(Without(hosts, i))) + multiset{HostAndPort(hosts[i])}
  {
    var p := Ports(hosts);
    assert Ports(Without(hosts, i)) == p[..i] + p[i + 1..];
    assert p == p[..i] + [p[i]] + p[i + 1..];
  }

  /** Dialing a member of the list and removing it keeps the account. */
  lemma DialAndRemove(dialed: Hosts, left: Hosts, listed: Hosts, h: HostInfo)
    requires h in left && Account(dialed, left, listed)
    ensures var i := IndexIn(left, h, SamePort);
            i != -1 && Account(dialed + [h], Without(left, i), listed)
  {
    var i := IndexIn(left, h, SamePort);
    assert i != -1 by {
      var k :| 0 <= k < |left| && left[k] == h;
      assert SamePort(left[k], h);
    }
    PortsAppend(dialed, h);
    PortsWithout(left, i);
  }

  lemma AccountedFor(dialed: Hosts, left: Hosts, listed: Hosts)
    requires Account(dialed, left, listed)
    ensures DialedAsListed(dialed, listed)
  {
  }

  /** A round: the hosts that were allowed when it began, and those it dialed. */
  datatype Round = Round(listed: Hosts, dialed: Hosts)

  function AllDialed(rounds: seq<Round>): Hosts {
    if rounds == [] then [] else AllDialed(rounds[..|rounds| - 1]) + rounds[|rounds| - 1].dialed
  }

  ghost predicate GoodRounds(rounds: seq<Round>) {
    forall k :: 0 <= k < |rounds| ==> DialedAsListed(rounds[k].dialed, rounds[k].listed)
  }

  lemma AddRound(rounds: seq<Round>, round: Round, before: Hosts)
    requires GoodRounds(rounds) && DialedAsListed(round.dialed, round.listed)
    ensures GoodRounds(rounds + [round])
    ensures before + AllDialed(rounds) + round.dialed == before + AllDialed(rounds + [round])
  {
    assert (rounds + [round])[..|rounds|] == rounds;
    assert AllDialed(rounds + [round]) == AllDialed(rounds) + round.dialed;
  }

  predicate AllAllowed(mode: Mode, home: string -> bool, hosts: Hosts) {
    forall i :: 0 <= i < |hosts| ==> Allowed(mode, home, hosts[i])
  }

  // ---------------------------------------------------------------------------------------------
  // The handler
  // ---------------------------------------------------------------------------------------------

  /** What came of a failover. When the connection was found but could not be made the current one, it is left open. */
  datatype Outcome = Done(candidate: Candidate) | NotSwitched(candidate: Candidate) | FailoverFailed

  function KeptBy(r: Outcome): Option<ConnId> {
    match r
    case Done(c) => Some(c.conn)
    case NotSwitched(c) => Some(c.conn)
    case FailoverFailed => None
  }

  class GlobalDbFailoverHandler {
    const network: Network
    const activeHomeFailoverMode: Mode
    const inactiveHomeFailoverMode: Mode
    const homeRegion: string
    const regionOf: string -> string

    constructor (network: Network, active: Mode, inactive: Mode, homeRegion: string, regionOf: string -> string)
      ensures this.network == network
    {
      this.network, activeHomeFailoverMode, inactiveHomeFailoverMode := network, active, inactive;
      this.homeRegion, this.regionOf := homeRegion, regionOf;
    }

    predicate IsHome(host: string) {
      EqualFold(regionOf(host), homeRegion)
    }

    /** Copies of the allowed hosts, all marked as available. */
    method CopyAvailable(listed: Hosts) returns (copies: Hosts)
      ensures SameButAvailability(copies, listed)
      ensures forall i :: 0 <= i < |copies| ==> copies[i].availability == Available
    {
      copies := [];
      for i := 0 to |listed|
        invariant SameButAvailability(copies, listed[..i])
        invariant forall k :: 0 <= k < i ==> copies[k].availability == Available
      {
        copies := copies + [listed[i].(availability := Available)];
      }
      assert listed[..|listed|] == listed;
    }

    /** One round of `getAllowedFailoverConnection`: the remaining hosts, a list of the round's own, get fewer with every
        host that does not do. */
    method TryRound(mode: Mode, listed: Hosts, failoverEnd: int)
      returns (r: Option<Candidate>, ghost dialed: Hosts, ghost left: Hosts)
      requires network.Valid() && AllAllowed(mode, IsHome, listed)
      modifies network
      ensures network.Valid() && OnlyKept(network, KeptConn(r)) && network.now >= old(network.now)
      ensures network.dialed == old(network.dialed) + dialed && Account(dialed, left, listed)
      ensures r.Some? ==> IsAcceptable(mode, r.value)
    {
      var remaining := CopyAvailable(listed);
      dialed, left := [], remaining;
      PortsOfCopies(remaining, listed);
      CopiesAllowed(mode, remaining, listed);
      assert Ports([]) == [];
      while |remaining| > 0
        invariant left == remaining && AllAllowed(mode, IsHome, remaining) && Account(dialed, left, listed)
        invariant network.Valid() && OnlyKept(network, None) && network.now >= old(network.now)
        invariant network.dialed == old(network.dialed) + dialed
        decreases |remaining|
      {
        var tried;
        r, tried := TryNext(mode, remaining, failoverEnd);
        if tried == None { break; }
        remaining := Remove(mode, remaining, tried.value, dialed, listed);
        dialed, left := dialed + [tried.value], remaining;
        if r.Some? { return; }
      }
      return None, dialed, left;
    }

    /** `RemoveFromSlice` on the round's own list, once a member of it has been dialed. */
    method Remove(mode: Mode, remaining: Hosts, host: HostInfo, ghost dialed: Hosts, ghost listed: Hosts)
      returns (fewer: Hosts)
      requires host in remaining && Account(dialed, remaining, listed) && AllAllowed(mode, IsHome, remaining)
      ensures |fewer| == |remaining| - 1
      ensures AllAllowed(mode, IsHome, fewer) && Account(dialed + [host], fewer, listed)
    {
      var i := IndexIn(remaining, host, SamePort);
      DialAndRemove(dialed, remaining, listed, host);
      WithoutKeepsAllowed(mode, remaining, i);
      fewer := Without(remaining, i);
    }

    /** The next candidate, if there is time and the selector has one. */
    method TryNext(mode: Mode, remaining: Hosts, failoverEnd: int) returns (r: Option<Candidate>, tried: Option<HostInfo>)
      requires network.Valid() && AllAllowed(mode, IsHome, remaining)
      modifies network
      ensures network.Valid() && OnlyKept(network, KeptConn(r)) && network.now >= old(network.now)
      ensures tried.Some? ==> tried.value in remaining
      ensures network.dialed == old(network.dialed) + (if tried.Some? then [tried.value] else [])
      ensures r.Some? ==> tried.Some? && IsAcceptable(mode, r.value)
    {
      var t := network.Now();
      if t >= failoverEnd { return None, None; }
      tried := network.GetHostInfoByStrategy(remaining);
      if tried == None { return None, None; }
      r := TryCandidate(mode, tried.value);
    }

    /** One candidate: it is dialed, asked for its role if the mode insists on one, and let go if it has another. */
    method TryCandidate(mode: Mode, host: HostInfo) returns (r: Option<Candidate>)
      requires network.Valid() && Allowed(mode, IsHome, host)
      modifies network`openedConns, network`next, network`dialed, network`roles, network`closedConns
      ensures network.Valid() && OnlyKept(network, KeptConn(r)) && network.dialed == old(network.dialed) + [host]
      ensures r.Some? ==> IsAcceptable(mode, r.value)
    {
      var attempt := network.Connect(host);
      if attempt.Failed? { return None; }
      if VerifyRole(mode) == None {
        return Some(Candidate(attempt.conn, host));
      }
      var role := network.GetHostRole(attempt.conn);
      if role == VerifyRole(mode).value {
        return Some(Candidate(attempt.conn, host.(role := role)));
      }
      network.Close(attempt.conn);
      return None;
    }

    /** The host is one the mode allows, was the last one dialed, and had the role the mode insists on when asked. */
    ghost predicate IsAcceptable(mode: Mode, c: Candidate)
      reads network
    {
      && Allowed(mode, IsHome, c.host)
      && network.dialed != [] && HostAndPort(network.dialed[|network.dialed| - 1]) == HostAndPort(c.host)
      && (VerifyRole(mode).Some? ==> c.conn in network.roles && network.roles[c.conn] == VerifyRole(mode).value)
    }

    lemma PortsOfCopies(copies: Hosts, listed: Hosts)
      requires SameButAvailability(copies, listed)
      ensures Ports(copies) == Ports(listed)
    {
      forall i | 0 <= i < |listed| ensures Ports(copies)[i] == Ports(listed)[i] {
        assert copies[i].(availability := Available) == listed[i].(availability := Available);
      }
    }

    lemma CopiesAllowed(mode: Mode, copies: Hosts, listed: Hosts)
      requires SameButAvailability(copies, listed) && AllAllowed(mode, IsHome, listed)
      ensures AllAllowed(mode, IsHome, copies)
    {
      forall i | 0 <= i < |copies| ensures Allowed(mode, IsHome, copies[i]) {
        assert copies[i].(availability := Available) == listed[i].(availability := Available);
        assert Allowed(mode, IsHome, listed[i]);
      }
    }

    lemma WithoutKeepsAllowed(mode: Mode, before: Hosts, i: int)
      requires -1 <= i < |before| && AllAllowed(mode, IsHome, before)
      ensures AllAllowed(mode, IsHome, Without(before, i))
    {
      var after := Without(before, i);
      forall k | 0 <= k < |after| ensures Allowed(mode, IsHome, after[k]) {
        assert after[k] == if i == -1 || k < i then before[k] else before[k + 1];
      }
    }

    /** The hosts allowed are looked up anew for every round. */
    method NextRound(mode: Mode, failoverEnd: int) returns (r: Option<Candidate>, ghost round: Round)
      requires network.Valid()
      modifies network
      ensures network.Valid() && OnlyKept(network, KeptConn(r)) && network.now >= old(network.now)
      ensures network.dialed == old(network.dialed) + round.dialed && DialedAsListed(round.dialed, round.listed)
      ensures AllAllowed(mode, IsHome, round.listed)
      ensures r.Some? ==> IsAcceptable(mode, r.value)
    {
      var refreshed := network.Refresh();
      var hosts := network.GetHosts();
      var updatedAllowedHosts := AllowedHosts(mode, IsHome, hosts);
      assert forall i :: 0 <= i < |updatedAllowedHosts| ==> updatedAllowedHosts[i] in updatedAllowedHosts;
      if updatedAllowedHosts == [] { return None, Round([], []); }
      ghost var dialed, left;
      r, dialed, left := TryRound(mode, updatedAllowedHosts, failoverEnd);
      AccountedFor(dialed, left, updatedAllowedHosts);
      round := Round(updatedAllowedHosts, dialed);
    }

    /** `getAllowedFailoverConnection`: rounds over the hosts allowed at the time, until the time is up. */
    method GetAllowedFailoverConnection(mode: Mode, failoverEnd: int)
      returns (r: Option<Candidate>, ghost rounds: seq<Round>)
      requires network.Valid()
      modifies network
      ensures network.Valid() && OnlyKept(network, KeptConn(r))
      ensures r.Some? ==> IsAcceptable(mode, r.value)
      ensures GoodRounds(rounds) && network.dialed == old(network.dialed) + AllDialed(rounds)
    {
      var ok := true;
      rounds := [];
      while ok
        invariant network.Valid() && OnlyKept(network, None)
        invariant GoodRounds(rounds) && network.dialed == old(network.dialed) + AllDialed(rounds)
        decreases ok, failoverEnd - network.now
      {
        ghost var round;
        r, round := NextRound(mode, failoverEnd);
        AddRound(rounds, round, old(network.dialed));
        rounds := rounds + [round];
        if r.Some? { return; }
        var t := network.Now();
        ok := t < failoverEnd;
      }
      return None, rounds;
    }

    /** `failoverToAllowedHost`. */
    method FailoverToAllowedHost(mode: Mode, failoverEnd: int) returns (r: Outcome)
      requires network.Valid()
      modifies network
      ensures network.Valid() && OnlyKept(network, KeptBy(r))
      ensures r.Done? || r.NotSwitched? ==> IsAcceptable(mode, r.candidate)
    {
      var found, _ := GetAllowedFailoverConnection(mode, failoverEnd);
      if found == None { return FailoverFailed; }
      var accepted := network.SetCurrentConnection(found.value.conn);
      return if accepted then Done(found.value) else NotSwitched(found.value);
    }

    /** `failoverToWriter`: the writer of the topology has to be among the allowed hosts. */
    method FailoverToWriter(writerCandidate: HostInfo, allowedHosts: Hosts) returns (r: Outcome)
      requires network.Valid() && writerCandidate.role == Writer
      modifies network`openedConns, network`next, network`dialed, network`roles, network`closedConns
      ensures network.Valid() && OnlyKept(network, KeptBy(r)) && !r.NotSwitched?
      ensures r.Done? ==> IsAcceptable(StrictWriter, r.candidate) && r.candidate.host == writerCandidate
      ensures if exists h :: h in allowedHosts && SamePort(h, writerCandidate)
              then network.dialed == old(network.dialed) + [writerCandidate]
              else r == FailoverFailed && network.dialed == old(network.dialed)
    {
      var found := false;
      for i := 0 to |allowedHosts|
        invariant found ==> exists h :: h in allowedHosts && SamePort(h, writerCandidate)
        invariant !found ==> forall j :: 0 <= j < i ==> !SamePort(allowedHosts[j], writerCandidate)
      {
        if HostAndPort(allowedHosts[i]) == HostAndPort(writerCandidate) {
          assert SamePort(allowedHosts[i], writerCandidate);
          found := true;
          break;
        }
      }
      if !found { return FailoverFailed; }
      var attempt := network.Connect(writerCandidate);
      if attempt.Failed? { return FailoverFailed; }
      var role := network.GetHostRole(attempt.conn);
      if role != Writer {
        network.Close(attempt.conn);
        return FailoverFailed;
      }
      var accepted := network.SetCurrentConnection(attempt.conn);
      if !accepted {
        network.Close(attempt.conn);
        return FailoverFailed;
      }
      return Done(Candidate(attempt.conn, writerCandidate));
    }

    /** The mode in force when `writer` is the writer. */
    function ModeFor(writer: HostInfo): Mode {
      if IsHome(writer.host) then activeHomeFailoverMode else inactiveHomeFailoverMode
    }

    /** `failover`: the mode depends on whether the writer of the refreshed topology is in the home region; without a
        writer nothing is dialed. */
    method Failover(failoverTimeout: nat) returns (r: Outcome, ghost writer: Option<HostInfo>)
      requires network.Valid()
      modifies network
      ensures network.Valid() && OnlyKept(network, KeptBy(r))
      ensures writer == None ==> r == FailoverFailed && network.dialed == old(network.dialed)
      ensures writer.Some? && !r.FailoverFailed? ==> IsAcceptable(ModeFor(writer.value), r.candidate)
      ensures writer.Some? && ModeFor(writer.value) == StrictWriter ==>
                !r.NotSwitched? && (r.Done? ==> r.candidate.host == writer.value)
                && network.dialed <= old(network.dialed) + [writer.value]
    {
      var start := network.Now();
      var refreshed := network.Refresh();
      if !refreshed { return FailoverFailed, None; }
      var writerCandidate := GetWriter(network.hosts);
      writer := writerCandidate;
      if writerCandidate == None { return FailoverFailed, None; }
      if ModeFor(writerCandidate.value) == StrictWriter {
        var hosts := network.GetHosts();
        r := FailoverToWriter(writerCandidate.value, hosts);
      } else {
        r := FailoverToAllowedHost(ModeFor(writerCandidate.value), start + failoverTimeout);
      }
    }
  }
}
