/** Cluster topologies: how query rows become a host list with one writer in front (`topology_utils.go`), and the
    order-independent key two topologies are compared by (`topology.go`). */
module Topology {
  import opened Strings
  import opened Sorting

  datatype Role = Reader | Writer | Unknown
  datatype Availability = Available | Unavailable

  datatype HostInfo = HostInfo(host: string, hostId: string, port: int, availability: Availability, role: Role,
                               weight: int, lastUpdateTime: int)

  type Hosts = seq<HostInfo>

  const HOST_NO_PORT := -1

  function HostAndPort(h: HostInfo): string {
    if h.port != HOST_NO_PORT then h.host + ":" + Itoa(h.port) else h.host
  }

  /** A usable topology: not empty, its only writer in front. */
  predicate SingleWriterFirst(hosts: Hosts) {
    hosts != [] && hosts[0].role == Writer && forall i :: 0 < i < |hosts| ==> hosts[i].role != Writer
  }

  predicate DistinctNames(hosts: Hosts) {
    forall i, j :: 0 <= i < j < |hosts| ==> hosts[i].host != hosts[j].host
  }

  /** What every topology query returns: nothing, or a usable topology naming each host once. */
  predicate IsQueryResult(hosts: Hosts) {
    hosts == [] || (SingleWriterFirst(hosts) && DistinctNames(hosts))
  }

  function OfRole(hosts: Hosts, writer: bool): (r: Hosts)
    ensures forall h :: h in r <==> h in hosts && (h.role == Writer) == writer
  {
    if hosts == [] then []
    else (if (hosts[0].role == Writer) == writer then [hosts[0]] else []) + OfRole(hosts[1..], writer)
  }

  lemma {:induction false} OfRoleAppend(hosts: Hosts, h: HostInfo, writer: bool)
    ensures OfRole(hosts + [h], writer)
         == OfRole(hosts, writer) + if (h.role == Writer) == writer then [h] else []
  {
    if hosts != [] {
      assert (hosts + [h])[1..] == hosts[1..] + [h];
      OfRoleAppend(hosts[1..], h, writer);
    }
  }

  lemma {:induction false} OfRoleDistinct(hosts: Hosts, writer: bool)
    requires DistinctNames(hosts)
    ensures DistinctNames(OfRole(hosts, writer))
  {
    if hosts != [] {
      OfRoleDistinct(hosts[1..], writer);
      var rest := OfRole(hosts[1..], writer);
      forall h | h in rest ensures h.host != hosts[0].host {
        var i :| 0 <= i < |hosts[1..]| && hosts[1..][i] == h;
        assert hosts[i + 1] == h;
      }
    }
  }

  /** The order writers are sorted by: newest update first. */
  predicate Newer(a: HostInfo, b: HostInfo) {
    a.lastUpdateTime > b.lastUpdateTime
  }

  /** What `verifyWriter` promises: nothing without a writer; otherwise the newest writer, then everyone who is not
      a writer, in the reported order. */
  predicate IsVerified(hosts: Hosts, result: Hosts) {
    if OfRole(hosts, true) == [] then result == []
    else
      && result != [] && result[0] in hosts && result[0].role == Writer
      && (forall h :: h in hosts && h.role == Writer ==> h.lastUpdateTime <= result[0].lastUpdateTime)
      && result[1..] == OfRole(hosts, false)
  }

  lemma FirstIsNewest(writers: Hosts, sorted: Hosts)
    requires writers != [] && IsSorted(writers, sorted, Newer)
    ensures |sorted| == |writers| && sorted[0] in writers
    ensures forall h :: h in writers ==> h.lastUpdateTime <= sorted[0].lastUpdateTime
  {
    SameElements(writers, sorted);
    assert sorted[0] in sorted;
    forall h | h in writers ensures h.lastUpdateTime <= sorted[0].lastUpdateTime {
      var i :| 0 <= i < |sorted| && sorted[i] == h;
      assert i > 0 ==> !Newer(sorted[i], sorted[0]);
    }
  }

  method VerifyWriter(hosts: Hosts) returns (result: Hosts)
    ensures IsVerified(hosts, result)
  {
    if hosts == [] { return []; }
    var writers, readers: Hosts := [], [];
    for n := 0 to |hosts|
      invariant writers == OfRole(hosts[..n], true) && readers == OfRole(hosts[..n], false)
    {
      assert hosts[..n + 1] == hosts[..n] + [hosts[n]];
      OfRoleAppend(hosts[..n], hosts[n], true);
      OfRoleAppend(hosts[..n], hosts[n], false);
      if hosts[n].role == Writer {
        writers := writers + [hosts[n]];
      } else {
        readers := readers + [hosts[n]];
      }
    }
    assert hosts[..|hosts|] == hosts;
    if writers == [] { return []; }
    var selectedWriter := writers[0];
    if |writers| > 1 {
      var sorted := SortSlice(writers, Newer);
      FirstIsNewest(writers, sorted);
      selectedWriter := sorted[0];
    }
    return [selectedWriter] + readers;
  }

  /** A verified host list is empty exactly when no writer was reported, and otherwise has one writer, in front. */
  lemma VerifiedHasOneWriter(hosts: Hosts, result: Hosts)
    requires IsVerified(hosts, result)
    ensures result == [] <==> forall h :: h in hosts ==> h.role != Writer
    ensures result != [] ==> SingleWriterFirst(result)
    ensures DistinctNames(hosts) ==> IsQueryResult(result)
  {
    var writers := OfRole(hosts, true);
    if writers == [] {
      forall h | h in hosts ensures h.role != Writer {
        assert h !in writers;
      }
    } else {
      assert writers[0] in writers;
      forall i | 0 < i < |result| ensures result[i].role != Writer {
        assert result[i] == result[1..][i - 1];
      }
      if DistinctNames(hosts) {
        OfRoleDistinct(hosts, false);
        forall i, j | 0 <= i < j < |result| ensures result[i].host != result[j].host {
          if i == 0 {
            assert result[j] in result[1..];
          } else {
            assert result[1..][i - 1] == result[i] && result[1..][j - 1] == result[j];
          }
        }
      }
    }
  }

  // ---------------------------------------------------------------------------------------------
  // From rows to hosts
  // ---------------------------------------------------------------------------------------------

  /** The row that is kept for its host: none is newer, and those as new come later. */
  predicate IsKeptRow(rows: seq<Option<HostInfo>>, i: nat) {
    && i < |rows| && rows[i].Some?
    && (forall j :: 0 <= j < |rows| && rows[j].Some? && rows[j].value.host == rows[i].value.host ==>
          rows[j].value.lastUpdateTime <= rows[i].value.lastUpdateTime)
    && (forall j :: 0 <= j < i && rows[j].Some? && rows[j].value.host == rows[i].value.host ==>
          rows[j].value.lastUpdateTime < rows[i].value.lastUpdateTime)
  }

  ghost predicate KeepsNewest(rows: seq<Option<HostInfo>>, m: map<string, HostInfo>) {
    && (forall k :: k in m ==> m[k].host == k && exists i: nat :: IsKeptRow(rows, i) && rows[i].value == m[k])
    && (forall i :: 0 <= i < |rows| && rows[i].Some? ==> rows[i].value.host in m)
  }

  function Store(m: map<string, HostInfo>, row: Option<HostInfo>): map<string, HostInfo> {
    if row.Some? && (row.value.host !in m || m[row.value.host].lastUpdateTime < row.value.lastUpdateTime)
    then m[row.value.host := row.value]
    else m
  }

  lemma KeepRow(rows: seq<Option<HostInfo>>, row: Option<HostInfo>, m: map<string, HostInfo>)
    requires KeepsNewest(rows, m)
    ensures KeepsNewest(rows + [row], Store(m, row))
  {
    var rows', m' := rows + [row], Store(m, row);
    forall k | k in m' ensures m'[k].host == k && exists i: nat :: IsKeptRow(rows', i) && rows'[i].value == m'[k] {
      if row.Some? && k == row.value.host && m' != m {
        KeepNewRow(rows, row.value, m);
      } else {
        KeepOldRow(rows, row, m, k);
      }
    }
  }

  lemma KeepNewRow(rows: seq<Option<HostInfo>>, h: HostInfo, m: map<string, HostInfo>)
    requires KeepsNewest(rows, m)
    requires h.host in m ==> m[h.host].lastUpdateTime < h.lastUpdateTime
    ensures IsKeptRow(rows + [Some(h)], |rows|) && (rows + [Some(h)])[|rows|] == Some(h)
  {
    if h.host in m {
      var i: nat :| IsKeptRow(rows, i) && rows[i].value == m[h.host];
    }
  }

  lemma KeepOldRow(rows: seq<Option<HostInfo>>, row: Option<HostInfo>, m: map<string, HostInfo>, k: string)
    requires KeepsNewest(rows, m) && k in m
    requires row.Some? && row.value.host == k ==> row.value.lastUpdateTime <= m[k].lastUpdateTime
    ensures exists i: nat :: IsKeptRow(rows + [row], i) && (rows + [row])[i].value == m[k]
  {
    var i: nat :| IsKeptRow(rows, i) && rows[i].value == m[k];
    assert IsKeptRow(rows + [row], i);
  }

  /** The loop over the rows: newer records replace older ones of the same host. */
  method CollectRows(rows: seq<Option<HostInfo>>) returns (hostsMap: map<string, HostInfo>)
    ensures KeepsNewest(rows, hostsMap)
  {
    hostsMap := map[];
    for n := 0 to |rows|
      invariant KeepsNewest(rows[..n], hostsMap)
    {
      KeepRow(rows[..n], rows[n], hostsMap);
      assert rows[..n + 1] == rows[..n] + [rows[n]];
      if rows[n].Some? {
        var host := rows[n].value;
        if host.host in hostsMap {
          if hostsMap[host.host].lastUpdateTime < host.lastUpdateTime {
            hostsMap := hostsMap[host.host := host];
          }
        } else {
          hostsMap := hostsMap[host.host := host];
        }
      }
    }
    assert rows[..|rows|] == rows;
  }

  /** The values of the map, in whatever order it iterates. */
  method ListHosts(hostsMap: map<string, HostInfo>) returns (hosts: Hosts)
    requires forall k :: k in hostsMap ==> hostsMap[k].host == k
    ensures DistinctNames(hosts)
    ensures forall h :: h in hosts <==> h.host in hostsMap && hostsMap[h.host] == h
  {
    hosts := [];
    var keys := hostsMap.Keys;
    while keys != {}
      invariant keys <= hostsMap.Keys
      invariant DistinctNames(hosts)
      invariant forall h :: h in hosts <==> h.host in hostsMap.Keys - keys && hostsMap[h.host] == h
      decreases keys
    {
      var k :| k in keys;
      keys := keys - {k};
      assert forall h :: h in hosts ==> h.host != k;
      hosts := hosts + [hostsMap[k]];
    }
  }

  /** What a topology query returns for the rows it read; `None` is a row that could not be turned into a host.
      `reported` lists the newest row of every host. */
  method QueryForTopology(rows: seq<Option<HostInfo>>) returns (result: Hosts, ghost reported: Hosts)
    ensures IsVerified(reported, result) && DistinctNames(reported)
    ensures forall h :: h in reported <==> exists i: nat :: IsKeptRow(rows, i) && rows[i].value == h
    ensures IsQueryResult(result)
  {
    var hostsMap := CollectRows(rows);
    var hosts := ListHosts(hostsMap);
    KeptRowsAreStored(rows, hostsMap);
    result := VerifyWriter(hosts);
    VerifiedHasOneWriter(hosts, result);
    reported := hosts;
  }

  lemma KeptRowsAreStored(rows: seq<Option<HostInfo>>, m: map<string, HostInfo>)
    requires KeepsNewest(rows, m)
    ensures forall h: HostInfo :: (h.host in m && m[h.host] == h)
                       <==> exists i: nat :: IsKeptRow(rows, i) && rows[i].value == h
  {
    forall h: HostInfo, i: nat | IsKeptRow(rows, i) && rows[i].value == h ensures h.host in m && m[h.host] == h {
      var j: nat :| IsKeptRow(rows, j) && rows[j].value == m[h.host];
      assert i == j;
    }
  }

  // ---------------------------------------------------------------------------------------------
  // Availability rewriting
  // ---------------------------------------------------------------------------------------------

  /** Same hosts in the same order, whatever happened to their availability. */
  predicate SameButAvailability(a: Hosts, b: Hosts) {
    |a| == |b| && forall i :: 0 <= i < |a| ==> a[i].(availability := Available) == b[i].(availability := Available)
  }

  /** `updateHostsAvailability`: a host is available when its own monitor has a topology report. */
  method UpdateHostsAvailability(hosts: Hosts, reporting: set<string>) returns (cloned: Hosts)
    ensures SameButAvailability(hosts, cloned)
    ensures forall i :: 0 <= i < |hosts| ==> (cloned[i].availability == Available <==> hosts[i].hostId in reporting)
  {
    cloned := [];
    for i := 0 to |hosts|
      invariant SameButAvailability(hosts[..i], cloned)
      invariant forall k :: 0 <= k < i ==> (cloned[k].availability == Available <==> hosts[k].hostId in reporting)
    {
      var availability := if hosts[i].hostId in reporting then Available else Unavailable;
      cloned := cloned + [hosts[i].(availability := availability)];
    }
  }

  lemma AvailabilityKeepsTopology(a: Hosts, b: Hosts)
    requires SameButAvailability(a, b)
    ensures SingleWriterFirst(a) <==> SingleWriterFirst(b)
    ensures DistinctNames(a) <==> DistinctNames(b)
  {
    assert forall i :: 0 <= i < |a| ==> a[i].role == b[i].role && a[i].host == b[i].host by {
      forall i | 0 <= i < |a| ensures a[i].role == b[i].role && a[i].host == b[i].host {
        assert a[i].(availability := Available) == b[i].(availability := Available);
      }
    }
  }

  /** `GetWriter`: the first host whose role is writer. */
  function GetWriter(hosts: Hosts): (w: Option<HostInfo>)
    ensures w.Some? ==> w.value in hosts && w.value.role == Writer
    ensures w == None <==> forall h :: h in hosts ==> h.role != Writer
  {
    if hosts == [] then None
    else if hosts[0].role == Writer then Some(hosts[0])
    else GetWriter(hosts[1..])
  }
}
