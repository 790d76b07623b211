/** The two retry loops of the Aurora initial connection strategy plugin. */
module InitialConnection {
  import opened Strings
  import opened Topology
  import opened Network

  /** What the loops return: a verified connection, nothing because the time is up, or an error. */
  datatype Verified = Opened(conn: ConnId) | TimedOut | GaveUp

  /** `hasNoReaders`: an empty topology is inconclusive. */
  predicate HasNoReaders(hosts: Hosts) {
    hosts != [] && forall h :: h in hosts ==> h.role == Writer
  }

  function Kept(r: Verified): Option<ConnId> {
    if r.Opened? then Some(r.conn) else None
  }

  class AuroraInitialConnectionStrategyPlugin {
    const network: Network
    const retryTimeoutMs: nat
    const isRdsClusterDns: string -> bool
    var initialConnectionHostInfo: Option<HostInfo>

    constructor (network: Network, retryTimeoutMs: nat, isRdsClusterDns: string -> bool)
      ensures this.network == network
    {
      this.network, this.retryTimeoutMs, this.isRdsClusterDns := network, retryTimeoutMs, isRdsClusterDns;
      initialConnectionHostInfo := None;
    }

    /** `handleErrorAndShouldRetry`, for an error that did happen: the candidate is closed in any case. */
    method HandleErrorAndShouldRetry(candidate: Option<ConnId>, loginError: bool) returns (retry: bool)
      requires network.Valid() && (candidate.Some? ==> candidate.value in network.openedConns)
      modifies network`closedConns
      ensures network.Valid() && retry == !loginError
      ensures network.closedConns == old(network.closedConns) + if candidate.Some? then {candidate.value} else {}
    {
      if candidate.Some? { network.Close(candidate.value); }
      return !loginError;
    }

    method NoReaders() returns (r: bool)
      ensures r == HasNoReaders(network.hosts)
    {
      if |network.hosts| < 1 { return false; }
      for i := 0 to |network.hosts|
        invariant forall j :: 0 <= j < i ==> network.hosts[j].role == Writer
      {
        if network.hosts[i].role == Writer { continue; }
        return false;
      }
      return true;
    }

    /** `getVerifiedWriterConnection`. */
    method GetVerifiedWriterConnection(isInitialConnection: bool) returns (r: Verified)
      requires network.Valid()
      modifies this, network
      ensures network.Valid() && OnlyKept(network, Kept(r))
      ensures r.Opened? ==> r.conn in network.roles && network.roles[r.conn] == Writer
      ensures if r.Opened? && isInitialConnection
              then initialConnectionHostInfo.Some? && initialConnectionHostInfo.value.role == Writer
              else initialConnectionHostInfo == old(initialConnectionHostInfo)
    {
      var start := network.Now();
      var endTime := start + retryTimeoutMs;
      while true
        invariant network.Valid() && OnlyKept(network, None)
        invariant initialConnectionHostInfo == old(initialConnectionHostInfo)
        decreases endTime - network.now
      {
        var t := network.Now();
        if t >= endTime { break; }
        var writerCandidate := GetWriter(network.hosts);
        if writerCandidate == None || isRdsClusterDns(writerCandidate.value.host) {
          var attempt := network.Dial();
          if attempt.Failed? {
            var retry := HandleErrorAndShouldRetry(None, attempt.loginError);
            if retry { continue; }
            return GaveUp;
          }
          var conn := attempt.conn;
          var refreshed := network.Refresh();
          if !refreshed {
            var loginError: bool := *;
            var retry := HandleErrorAndShouldRetry(Some(conn), loginError);
            if retry { continue; }
            return GaveUp;
          }
          var identified;
          identified, writerCandidate := network.IdentifyConnection(conn);
          if !identified {
            var loginError: bool := *;
            var retry := HandleErrorAndShouldRetry(Some(conn), loginError);
            if retry { continue; }
            return GaveUp;
          }
          if writerCandidate == None || writerCandidate.value.role != Writer {
            network.Close(conn);
            continue;
          }
          if isInitialConnection { initialConnectionHostInfo := writerCandidate; }
          return Opened(conn);
        }
        var attempt := network.Connect(writerCandidate.value);
        if attempt.Failed? {
          var retry := HandleErrorAndShouldRetry(None, attempt.loginError);
          if retry { continue; }
          return GaveUp;
        }
        var conn := attempt.conn;
        var role := network.GetHostRole(conn);
        if role != Writer {
          var refreshed := network.Refresh();
          if !refreshed {
            var loginError: bool := *;
            var retry := HandleErrorAndShouldRetry(Some(conn), loginError);
            if retry { continue; }
            return GaveUp;
          }
          network.Close(conn);
          continue;
        }
        if isInitialConnection { initialConnectionHostInfo := writerCandidate; }
        return Opened(conn);
      }
      return TimedOut;
    }

    /** `getVerifiedReaderConnection`; `getReader` fails when the selector strategy is not supported. */
    method GetVerifiedReaderConnection(isInitialConnection: bool) returns (r: Verified)
      requires network.Valid()
      modifies this, network
      ensures network.Valid() && OnlyKept(network, Kept(r))
      ensures r.Opened? ==> r.conn in network.roles && (network.roles[r.conn] == Reader || HasNoReaders(network.hosts))
      ensures if r.Opened? && isInitialConnection then initialConnectionHostInfo.Some?
              else initialConnectionHostInfo == old(initialConnectionHostInfo)
    {
      var start := network.Now();
      var endTime := start + retryTimeoutMs;
      while true
        invariant network.Valid() && OnlyKept(network, None)
        invariant initialConnectionHostInfo == old(initialConnectionHostInfo)
        decreases endTime - network.now
      {
        var t := network.Now();
        if t >= endTime { break; }
        var supported: bool := *;
        if !supported {
          var retry := HandleErrorAndShouldRetry(None, false);
          if retry { continue; }
          return GaveUp;
        }
        var readerCandidateHost := network.GetHostInfoByStrategy(network.hosts);
        if readerCandidateHost == None || isRdsClusterDns(readerCandidateHost.value.host) {
          var attempt := network.Dial();
          if attempt.Failed? {
            var retry := HandleErrorAndShouldRetry(None, attempt.loginError);
            if retry { continue; }
            return GaveUp;
          }
          var conn := attempt.conn;
          var refreshed := network.Refresh();
          if !refreshed {
            var loginError: bool := *;
            var retry := HandleErrorAndShouldRetry(Some(conn), loginError);
            if retry { continue; }
            return GaveUp;
          }
          var identified;
          identified, readerCandidateHost := network.IdentifyConnection(conn);
          if !identified {
            var loginError: bool := *;
            var retry := HandleErrorAndShouldRetry(Some(conn), loginError);
            if retry { continue; }
            return GaveUp;
          }
          if readerCandidateHost == None {
            network.Close(conn);
            continue;
          }
          if readerCandidateHost.value.role != Reader {
            var none := NoReaders();
            if none {
              if isInitialConnection { initialConnectionHostInfo := readerCandidateHost; }
              return Opened(conn);
            }
            network.Close(conn);
            continue;
          }
          if isInitialConnection { initialConnectionHostInfo := readerCandidateHost; }
          return Opened(conn);
        }
        var attempt := network.Connect(readerCandidateHost.value);
        if attempt.Failed? {
          var retry := HandleErrorAndShouldRetry(None, attempt.loginError);
          if retry { continue; }
          return GaveUp;
        }
        var conn := attempt.conn;
        var role := network.GetHostRole(conn);
        if role != Reader {
          var refreshed := network.Refresh();
          if !refreshed {
            var loginError: bool := *;
            var retry := HandleErrorAndShouldRetry(Some(conn), loginError);
            if retry { continue; }
            return GaveUp;
          }
          var none := NoReaders();
          if none {
            if isInitialConnection { initialConnectionHostInfo := readerCandidateHost; }
            return Opened(conn);
          }
          network.Close(conn);
          continue;
        }
        if isInitialConnection { initialConnectionHostInfo := readerCandidateHost; }
        return Opened(conn);
      }
      return TimedOut;
    }
  }
}
