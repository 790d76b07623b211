/** The failover plugin's loops for a single cluster (`failover_plugin.go`). */
module Failover {
  import opened Strings
  import opened Topology
  import opened Network
  import opened Slices
  import opened ReaderRounds

  function Readers(hosts: Hosts): (r: Hosts)
    ensures forall h :: h in r <==> h in hosts && h.role == Reader
  {
    if hosts == [] then [] else (if hosts[0].role == Reader then [hosts[0]] else []) + Readers(hosts[1..])
  }

  function KeptConn(r: Option<Candidate>): Option<ConnId> {
    if r.Some? then Some(r.value.conn) else None
  }

  /** The candidate's connection was the last one dialed, and its role is what the host answered. */
  predicate IsLastDialed(network: Network, c: Candidate)
    reads network
  {
    && c.conn in network.roles && c.host.role == network.roles[c.conn]
    && network.dialed != [] && c.host == network.dialed[|network.dialed| - 1].(role := c.host.role)
  }

  /** What `getReaderFailoverConnection` keeps from round to round: the readers, as the first `count` elements of an
      array, and the original writer. */
  datatype Candidates = Candidates(readers: array<HostInfo>, count: nat, originalWriter: Option<HostInfo>,
                                   isOriginalWriterStillWriter: bool)

  /** The array as a round finds it that still has `remaining` candidates to try. */
  function AsRound(c: Candidates, remaining: nat): Round
    reads c.readers
  {
    Round(c.readers[..], remaining, c.count)
  }

  /** The candidate is that host, its connection was opened, and its role is what the host answered. */
  predicate HasAnswered(conns: set<ConnId>, roles: map<ConnId, Role>, host: HostInfo, c: Candidate) {
    c.host == host.(role := c.host.role) && c.conn in conns && c.conn in roles && roles[c.conn] == c.host.role
  }

  /** What is said of the rejected hosts is what they answered. */
  predicate Answered(conns: set<ConnId>, roles: map<ConnId, Role>, rejected: seq<Rejection>) {
    forall k :: 0 <= k < |rejected| && rejected[k].found.Some? ==>
      HasAnswered(conns, roles, rejected[k].host, rejected[k].found.value)
  }

  /** The connections there were have not been asked again. */
  predicate OldAnswersStay(conns: set<ConnId>, roles: map<ConnId, Role>, newConns: set<ConnId>,
                           newRoles: map<ConnId, Role>)
  {
    conns <= newConns && forall c :: c in conns && c in roles ==> c in newRoles && newRoles[c] == roles[c]
  }

  lemma StillAnswered(conns: set<ConnId>, roles: map<ConnId, Role>, newConns: set<ConnId>, newRoles: map<ConnId, Role>,
                      rejected: seq<Rejection>)
    requires Answered(conns, roles, rejected) && OldAnswersStay(conns, roles, newConns, newRoles)
    ensures Answered(newConns, newRoles, rejected)
  {
  }

  lemma AnsweredToo(conns: set<ConnId>, roles: map<ConnId, Role>, rejected: seq<Rejection>, x: Rejection)
    requires Answered(conns, roles, rejected) && Answered(conns, roles, [x])
    ensures Answered(conns, roles, rejected + [x])
  {
    assert [x][0] == x;
  }

  /** What a round keeps of the candidates unless they are looked up anew, apart from the array. */
  predicate Unrenewed(before: Candidates, after: Candidates, rejected: seq<Rejection>) {
    && after.originalWriter == before.originalWriter
    && (after.isOriginalWriterStillWriter <==> before.isOriginalWriterStillWriter && NoWriters(rejected))
  }

  predicate NoWriters(rejected: seq<Rejection>) {
    forall k :: 0 <= k < |rejected| ==> !IsWriter(rejected[k])
  }

  lemma UnrenewedToo(first: Candidates, before: Candidates, after: Candidates, rejected: seq<Rejection>, x: Rejection)
    requires Unrenewed(first, before, rejected) && after.originalWriter == before.originalWriter
    requires after.isOriginalWriterStillWriter == (before.isOriginalWriterStillWriter && !IsWriter(x))
    ensures Unrenewed(first, after, rejected + [x])
  {
    var more := rejected + [x];
    assert more[|rejected|] == x && forall k :: 0 <= k < |rejected| ==> more[k] == rejected[k];
  }

  class FailoverPlugin {
    const network: Network
    const strictReader: bool

    constructor (network: Network, strictReader: bool)
      ensures this.network == network && this.strictReader == strictReader
    {
      this.network, this.strictReader := network, strictReader;
    }

    /** What the loop does with a reader and with the original writer: it dials the host and asks for its role; a host
        of the wrong role is let go again. `found` is `None` when the host cannot be reached. */
    method TryHost(host: HostInfo) returns (r: Option<Candidate>, found: Option<Candidate>)
      requires network.Valid()
      modifies network`openedConns, network`next, network`dialed, network`roles, network`closedConns
      ensures network.Valid() && OnlyKept(network, KeptConn(r)) && network.dialed == old(network.dialed) + [host]
      ensures found.Some? ==> IsLastDialed(network, found.value)
                              && HasAnswered(network.openedConns, network.roles, host, found.value)
      ensures r == if found.Some? && (found.value.host.role == Reader || !strictReader) then found else None
      ensures OldAnswersStay(old(network.openedConns), old(network.roles), network.openedConns, network.roles)
    {
      var attempt := network.Connect(host);
      if attempt.Failed? { return None, None; }
      var answer := network.GetHostRole(attempt.conn);
      found := Some(Candidate(attempt.conn, host.(role := answer)));
      if answer == Reader || !strictReader { return found, found; }
      network.Close(attempt.conn);
      return None, found;
    }

    /** `RemoveFromSlice` on the first `count` readers. */
    method Drop(readers: array<HostInfo>, count: nat, host: HostInfo) returns (fewer: nat)
      requires count <= readers.Length
      modifies readers
      ensures var removal := Dropping(old(readers[..]), count, host);
              fewer == CountAfter(removal) && readers[..] == AfterRemoval(old(readers[..]), removal)
    {
      assert readers[..][..count] == readers[..count] && readers[..][count..] == readers[count..];
      fewer := RemoveFromSlice(readers, count, host, HostEquals);
      assert readers[..] == readers[..count] + readers[count..];
    }

    /** A candidate that does not do is removed from the remaining ones, and when it turned out to be a writer from the
        candidates of all rounds as well. Both share the array. */
    method Discard(after: Candidates, remainingCount: nat, x: Rejection) returns (fewer: nat, updated: Candidates)
      requires remainingCount <= after.readers.Length && after.count <= after.readers.Length
      modifies after.readers
      ensures updated.readers == after.readers && updated.originalWriter == after.originalWriter
      ensures AsRound(updated, fewer) == Reject(old(AsRound(after, remainingCount)), x)
      ensures updated.isOriginalWriterStillWriter == (after.isOriginalWriterStillWriter && !IsWriter(x))
    {
      ghost var s := AsRound(after, remainingCount);
      updated := after;
      fewer := Drop(after.readers, remainingCount, x.host);
      ghost var once := after.readers[..];
      RemovedOnce(s.readers, Dropping(s.readers, s.remaining, x.host));
      if IsWriter(x) {
        var count := Drop(after.readers, after.count, x.host);
        updated := after.(count := count, isOriginalWriterStillWriter := false);
        RemovedTwice(s.readers, Dropping(s.readers, s.remaining, x.host), Dropping(once, s.count, x.host));
      }
    }

    /** What is known of a round that has gone through these states. */
    ghost predicate InRound(states: seq<Round>, rejected: seq<Rejection>, c: Candidates, remaining: nat)
      reads network, c.readers
    {
      && network.Valid() && Answered(network.openedConns, network.roles, rejected) && AllRefused(rejected)
      && IsRun(states, rejected) && states[|rejected|] == AsRound(c, remaining)
    }

    /** What happens to one candidate of a round. */
    method TryReader(after: Candidates, remainingCount: nat, candidate: HostInfo)
      returns (r: Option<Candidate>, fewer: nat, updated: Candidates, ghost x: Rejection)
      requires network.Valid() && remainingCount <= after.readers.Length && after.count <= after.readers.Length
      modifies network`openedConns, network`next, network`dialed, network`roles, network`closedConns, after.readers
      ensures network.Valid() && OnlyKept(network, KeptConn(r)) && network.dialed == old(network.dialed) + [candidate]
      ensures r.Some? ==> IsLastDialed(network, r.value) && (strictReader ==> r.value.host.role == Reader)
      ensures OldAnswersStay(old(network.openedConns), old(network.roles), network.openedConns, network.roles)
      ensures x.host == candidate && Answered(network.openedConns, network.roles, [x])
      ensures r.Some? ==> updated == after && fewer == remainingCount && after.readers[..] == old(after.readers[..])
      ensures r == None ==>
                && Refuses(x) && updated.readers == after.readers && updated.originalWriter == after.originalWriter
                && AsRound(updated, fewer) == Reject(old(AsRound(after, remainingCount)), x)
                && updated.isOriginalWriterStillWriter == (after.isOriginalWriterStillWriter && !IsWriter(x))
    {
      var found;
      r, found := TryHost(candidate);
      updated, fewer, x := after, remainingCount, Rejection(candidate, found);
      if r == None {
        fewer, updated := Discard(after, remainingCount, Rejection(candidate, found));
      }
    }

    /** A host of this role does not do. */
    predicate Refuses(x: Rejection) {
      x.found.Some? ==> strictReader && x.found.value.host.role != Reader
    }

    /** One round of `getReaderFailoverConnection` over the readers. The candidates of a round share their array with the
        candidates of all rounds. `unsupported` tells that the selector strategy is not known, which ends the search.
        A round dials candidates only, and no more often than there are candidates: the `rejected` ones, each of them
        among those still to try, and at most one more, which it returns. `states` tells what it leaves of the array,
        and of the candidates for the next round unless these were looked up anew. */
    method TryReaders(candidates: Candidates, endTime: int)
      returns (r: Option<Candidate>, unsupported: bool, after: Candidates, ghost states: seq<Round>,
               ghost rejected: seq<Rejection>)
      requires network.Valid() && candidates.count <= candidates.readers.Length
      modifies network, candidates.readers
      ensures network.Valid() && OnlyKept(network, KeptConn(r)) && network.now >= old(network.now)
      ensures r.Some? ==> IsLastDialed(network, r.value) && (strictReader ==> r.value.host.role == Reader)
      ensures after.count <= after.readers.Length
      ensures after.readers == candidates.readers || fresh(after.readers)
      ensures network.dialed == old(network.dialed) + HostsOf(rejected) + LastDialed(network.dialed, r)
      ensures AreAmong(HostsOf(rejected) + LastDialed(network.dialed, r), old(candidates.readers[..]))
      ensures |rejected| + |LastDialed(network.dialed, r)| <= candidates.count
      ensures Answered(network.openedConns, network.roles, rejected) && AllRefused(rejected)
      ensures IsRun(states, rejected) && states[0] == old(AsRound(candidates, candidates.count))
      ensures states[|rejected|].readers == candidates.readers[..]
      ensures after.readers == candidates.readers ==>
                after.count == states[|rejected|].count && Unrenewed(candidates, after, rejected)
    {
      after, states, rejected := candidates, [AsRound(candidates, candidates.count)], [];
      var remainingCount: nat := candidates.count;
      unsupported := false;
      while remainingCount > 0
        invariant after.readers == candidates.readers && InRound(states, rejected, after, remainingCount)
        invariant OnlyKept(network, None) && network.now >= old(network.now)
        invariant network.dialed == old(network.dialed) + HostsOf(rejected)
        invariant states[0] == old(AsRound(candidates, candidates.count)) && Unrenewed(candidates, after, rejected)
        decreases remainingCount
      {
        RunFacts(states, rejected);
        var t := network.Now();
        if t >= endTime { break; }
        var candidate := network.GetHostInfoByStrategy(after.readers[..remainingCount]);
        if candidate == None {
          var renewed;
          unsupported, renewed, after := NoCandidate(after);
          return None, unsupported, after, states, rejected;
        }
        assert candidate.value in after.readers[..];
        r, remainingCount, after, states, rejected :=
          TryNext(after, remainingCount, candidate.value, candidates, states, rejected);
        if r.Some? {
          RunFacts(states, rejected);
          return;
        }
      }
      RunFacts(states, rejected);
      return None, false, after, states, rejected;
    }

    /** One more step of a round. */
    method TryNext(before: Candidates, remainingCount: nat, candidate: HostInfo, ghost first: Candidates,
                   ghost states: seq<Round>, ghost rejected: seq<Rejection>)
      returns (r: Option<Candidate>, fewer: nat, after: Candidates, ghost later: seq<Round>,
               ghost more: seq<Rejection>)
      requires InRound(states, rejected, before, remainingCount) && Unrenewed(first, before, rejected)
      requires remainingCount <= before.readers.Length && candidate in before.readers[..remainingCount]
      modifies network`openedConns, network`next, network`dialed, network`roles, network`closedConns, before.readers
      ensures OnlyKept(network, KeptConn(r)) && network.dialed == old(network.dialed) + [candidate]
      ensures r.Some? ==> IsLastDialed(network, r.value) && (strictReader ==> r.value.host.role == Reader)
      ensures after.readers == before.readers && InRound(later, more, after, fewer) && later[0] == states[0]
      ensures if r.Some? then more == rejected && after == before && fewer == remainingCount
              else HostsOf(more) == HostsOf(rejected) + [candidate] && fewer < remainingCount
      ensures Unrenewed(first, after, more)
    {
      RunFacts(states, rejected);
      ghost var x;
      r, fewer, after, x := TryReader(before, remainingCount, candidate);
      StillAnswered(old(network.openedConns), old(network.roles), network.openedConns, network.roles, rejected);
      later, more := states, rejected;
      if r == None {
        RunOn(states, rejected, x, AsRound(after, fewer));
        AnsweredToo(network.openedConns, network.roles, rejected, x);
        UnrenewedToo(first, before, after, rejected, x);
        later, more := states + [AsRound(after, fewer)], rejected + [x];
      }
    }

    predicate AllRefused(rejected: seq<Rejection>) {
      forall k :: 0 <= k < |rejected| ==> Refuses(rejected[k])
    }

    /** The selector gave no candidate: its strategy is not known, or it knows none, or it failed and the candidates are
        looked up anew. */
    method NoCandidate(after: Candidates) returns (unsupported: bool, renewed: bool, updated: Candidates)
      requires after.count <= after.readers.Length
      modifies network`hosts
      ensures updated.count <= updated.readers.Length
      ensures if renewed then fresh(updated.readers) else updated == after
      ensures unsupported ==> !renewed
    {
      updated, renewed := after, false;
      var isNil: bool := *;
      unsupported := *;
      if unsupported || isNil { return; }
      var refreshed := network.Refresh();
      if refreshed {
        var readers := NewSlice(Readers(network.hosts));
        updated := Candidates(readers, readers.Length, GetWriter(network.hosts), after.isOriginalWriterStillWriter);
        renewed := true;
      }
    }

    /** `getReaderFailoverConnection`: rounds over the readers and then the original writer, until the time is up. */
    method GetReaderFailoverConnection(endTime: int) returns (r: Option<Candidate>)
      requires network.Valid()
      modifies network
      ensures network.Valid() && OnlyKept(network, KeptConn(r))
      ensures r.Some? ==> IsLastDialed(network, r.value) && (strictReader ==> r.value.host.role == Reader)
    {
      var hosts := network.GetHosts();
      var readers := NewSlice(Readers(hosts));
      var candidates := Candidates(readers, readers.Length, GetWriter(hosts), false);
      var ok := true;
      while ok
        invariant fresh(candidates.readers) && candidates.count <= candidates.readers.Length
        invariant network.Valid() && OnlyKept(network, None)
        decreases ok, endTime - network.now
      {
        label round: {
          var unsupported;
          ghost var states, rejected;
          r, unsupported, candidates, states, rejected := TryReaders(candidates, endTime);
          if r.Some? || unsupported { return; }
          if candidates.originalWriter == None { break round; }
          var t := network.Now();
          if t > endTime { break round; }
          if strictReader && candidates.isOriginalWriterStillWriter { break round; }
          var found;
          r, found := TryHost(candidates.originalWriter.value);
          if r.Some? { return; }
          if found.Some? && found.value.host.role == Writer {
            candidates := candidates.(isOriginalWriterStillWriter := true);
          }
        }
        var t := network.Now();
        ok := t < endTime;
      }
      return None;
    }

    /** `FailoverWriter`, without its bookkeeping: the writer of the refreshed topology is dialed, has to confirm its
        role, and becomes the current connection. */
    method FailoverWriter() returns (r: Option<Candidate>)
      requires network.Valid()
      modifies network
      ensures network.Valid() && OnlyKept(network, KeptConn(r))
      ensures r.Some? ==> IsLastDialed(network, r.value) && r.value.host.role == Writer
                          && GetWriter(network.hosts) == Some(r.value.host)
      ensures |network.dialed| <= |old(network.dialed)| + 1
    {
      var refreshed := network.Refresh();
      if !refreshed { return None; }
      var writerCandidate := GetWriter(network.hosts);
      if writerCandidate == None { return None; }
      var attempt := network.Connect(writerCandidate.value);
      if attempt.Failed? { return None; }
      var role := network.GetHostRole(attempt.conn);
      if role != Writer {
        network.Close(attempt.conn);
        return None;
      }
      var accepted := network.SetCurrentConnection(attempt.conn);
      if !accepted {
        network.Close(attempt.conn);
        return None;
      }
      return Some(Candidate(attempt.conn, writerCandidate.value));
    }
  }

  /** The host of the connection that is returned. */
  function LastDialed(dialed: Hosts, r: Option<Candidate>): Hosts {
    if r.Some? && dialed != [] then [dialed[|dialed| - 1]] else []
  }
}
