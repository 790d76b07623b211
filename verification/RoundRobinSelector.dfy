/** The round robin selector as the code has it: one information object shared by the hosts of a cluster, found through
    a timed map, and updated in place. */
module RoundRobinSelector {
  import opened Strings
  import opened Topology
  import opened CacheMap
  import opened Fairness
  import opened RoundRobin
  import opened Sorting
  import opened TopologyKey

  class RoundRobinClusterInfo {
    var lastHost: Option<HostInfo>
    var clusterWeightsMap: map<string, int>
    var defaultWeight: int
    var weightCounter: int
    var lastPairs: string
    var lastDefault: int

    constructor (pairs: string)
      ensures ToInfo() == Info(None, map[], DEFAULT_WEIGHT, 0, pairs, DEFAULT_WEIGHT)
    {
      lastHost, clusterWeightsMap, weightCounter := None, map[], 0;
      defaultWeight, lastPairs, lastDefault := DEFAULT_WEIGHT, pairs, DEFAULT_WEIGHT;
    }

    function ToInfo(): Info
      reads this
    {
      Info(lastHost, clusterWeightsMap, defaultWeight, weightCounter, lastPairs, lastDefault)
    }

    method UpdateDefaultWeight(props: Props) returns (ok: bool)
      modifies this
      ensures Outcome(ToInfo(), ok) == UpdateDefault(old(ToInfo()), props)
    {
      var weight := DEFAULT_WEIGHT;
      if props.Some? {
        var converted := Atoi(DefaultText(props));
        if converted == None || converted.value <= 0 { return false; }
        lastDefault := converted.value;
        weight := converted.value;
      }
      defaultWeight := weight;
      return true;
    }

    method UpdateHostWeightPairs(props: Props) returns (ok: bool)
      modifies this
      ensures Outcome(ToInfo(), ok) == UpdatePairs(old(ToInfo()), props)
    {
      if props == None { return true; }
      var hostWeights := PairsValue(props);
      lastPairs := hostWeights;
      if hostWeights == "" {
        clusterWeightsMap := map[];
        return true;
      }
      var pairs := Split(hostWeights, ',');
      ghost var noted := ToInfo();
      var i := 0;
      while i < |pairs|
        invariant 0 <= i <= |pairs|
        invariant StorePairs(ToInfo(), pairs[i..]) == StorePairs(noted, pairs)
        decreases |pairs| - i
      {
        var pair := ParsePair(pairs[i]);
        if pair == None { return false; }
        assert pairs[i..][1..] == pairs[i + 1..];
        clusterWeightsMap := clusterWeightsMap[pair.value.0 := pair.value.1];
        i := i + 1;
      }
      return true;
    }

    /** The part of `createCacheEntryForHosts` that takes up changed properties. */
    method TakeUp(props: Props) returns (ok: bool)
      modifies this
      ensures Outcome(ToInfo(), ok) == Refresh(old(ToInfo()), props)
    {
      if props.Some? && PairsValue(props) != lastPairs {
        lastHost, weightCounter := None, 0;
        ok := UpdateHostWeightPairs(props);
        if !ok { return; }
      }
      if props.Some? && DefaultValue(props) != lastDefault {
        lastHost, weightCounter := None, 0;
        ok := UpdateDefaultWeight(props);
        if !ok { return; }
      }
      return true;
    }

    /** The last part of `GetHost`: the scheduler's choice. */
    method ChooseHost(eligibleHosts: Hosts) returns (host: HostInfo)
      requires eligibleHosts != []
      modifies this
      ensures host == eligibleHosts[Target(eligibleHosts, old(ToInfo()))]
      ensures ToInfo() == Choose(eligibleHosts, old(ToInfo()))
    {
      var lastHostIndex := -1;
      if lastHost.Some? {
        lastHostIndex := IndexOfName(eligibleHosts, lastHost.value.host);
      }
      var targetHostIndex: int;
      if weightCounter > 0 && lastHostIndex != -1 {
        targetHostIndex := lastHostIndex;
      } else {
        targetHostIndex := if lastHostIndex != |eligibleHosts| - 1 then lastHostIndex + 1 else 0;
        var id := eligibleHosts[targetHostIndex].hostId;
        var weight := if id in clusterWeightsMap then clusterWeightsMap[id] else 0;
        weightCounter := if weight == 0 then defaultWeight else weight;
      }
      weightCounter := weightCounter - 1;
      lastHost := Some(eligibleHosts[targetHostIndex]);
      return eligibleHosts[targetHostIndex];
    }
  }

  /** Which hosts take part: of the wanted role, if any, and available. */
  predicate IsEligible(role: Option<Role>, h: HostInfo) {
    (role == None || role.value == h.role) && h.availability == Available
  }

  function Filter(hosts: Hosts, role: Option<Role>): (r: Hosts)
    ensures forall h :: h in r <==> h in hosts && IsEligible(role, h)
  {
    if hosts == [] then []
    else (if IsEligible(role, hosts[0]) then [hosts[0]] else []) + Filter(hosts[1..], role)
  }

  function NamesOf(hosts: Hosts): set<string> {
    set h | h in hosts :: h.host
  }

  /** From `now` on, these hosts share one information object until their entries expire. */
  ghost predicate Shared(cache: CacheMap<RoundRobinClusterInfo>, hosts: Hosts, info: RoundRobinClusterInfo, now: int)
    reads cache
  {
    forall t, h :: t >= now && h in hosts ==>
      && (h.host in cache.Live(t) <==> t <= now + CACHE_EXPIRE)
      && (h.host in cache.Live(t) ==> cache.Live(t)[h.host] == info)
  }

  class RoundRobinHostSelector {
    const cache: CacheMap<RoundRobinClusterInfo>

    constructor (now: int)
      ensures fresh(cache) && cache.cache == map[]
    {
      cache := new CacheMap(now);
    }

    /** The information object of the first host that has one. */
    function Existing(hosts: Hosts, now: int): (r: Option<RoundRobinClusterInfo>)
      reads cache
      ensures r.Some? ==> exists h :: h in hosts && h.host in cache.Live(now) && cache.Live(now)[h.host] == r.value
    {
      if hosts == [] then None
      else if hosts[0].host in cache.Live(now) then Some(cache.Live(now)[hosts[0].host])
      else Existing(hosts[1..], now)
    }

    /** What that object says. */
    function EntryFor(hosts: Hosts, now: int): Option<Info>
      reads cache, cache.Live(now).Values
    {
      match Existing(hosts, now)
      case None => None
      case Some(info) => Some(info.ToInfo())
    }

    /** The objects of hosts that may take part. */
    function Named(hosts: Hosts, role: Option<Role>, now: int): (s: set<object>)
      reads cache
      ensures s <= cache.Live(now).Values
    {
      set h | h in hosts && IsEligible(role, h) && h.host in cache.Live(now) :: cache.Live(now)[h.host]
    }

    /** The object a call for these hosts may change. */
    function Owner(hosts: Hosts, now: int): (s: set<object>)
      reads cache
      ensures s <= cache.Live(now).Values
    {
      if Existing(hosts, now).Some? then {Existing(hosts, now).value} else {}
    }

    /** All hosts of the cluster share one information object from now on. */
    method Share(hosts: Hosts, info: RoundRobinClusterInfo, now: int)
      modifies cache
      ensures Shared(cache, hosts, info, now)
      ensures forall t, k :: t >= now && k !in NamesOf(hosts) ==>
                (k in cache.Live(t) <==> k in old(cache.Live(t)))
                && (k in cache.Live(t) ==> cache.Live(t)[k] == old(cache.Live(t))[k])
    {
      for i := 0 to |hosts|
        invariant Shared(cache, hosts[..i], info, now)
        invariant forall t, k :: t >= now && k !in NamesOf(hosts) ==>
                    (k in cache.Live(t) <==> k in old(cache.Live(t)))
                    && (k in cache.Live(t) ==> cache.Live(t)[k] == old(cache.Live(t))[k])
      {
        assert hosts[i].host in NamesOf(hosts);
        cache.Put(hosts[i].host, info, CACHE_EXPIRE, now);
        assert forall h :: h in hosts[..i + 1] ==> h in hosts[..i] || h == hosts[i];
      }
      assert hosts[..|hosts|] == hosts;
    }

    method FindExisting(hosts: Hosts, now: int) returns (found: Option<RoundRobinClusterInfo>)
      ensures found == Existing(hosts, now)
    {
      for i := 0 to |hosts|
        invariant Existing(hosts, now) == Existing(hosts[i..], now)
      {
        found := cache.Get(hosts[i].host, now);
        if found.Some? { return; }
        assert hosts[i..][1..] == hosts[i + 1..];
      }
      return None;
    }

    /** `createCacheEntryForHosts`. */
    method CreateCacheEntryForHosts(hosts: Hosts, props: Props, now: int)
      returns (ok: bool, info: RoundRobinClusterInfo)
      requires hosts != []
      modifies cache, Owner(hosts, now)
      ensures if old(Existing(hosts, now)).Some? then info == old(Existing(hosts, now)).value else fresh(info)
      ensures Outcome(info.ToInfo(), ok) == Start(old(EntryFor(hosts, now)), props)
      ensures ok ==> Shared(cache, hosts, info, now)
      ensures !ok ==> unchanged(cache)
    {
      var found := FindExisting(hosts, now);
      if found.Some? {
        info := found.value;
        ok := info.TakeUp(props);
      } else {
        info := new RoundRobinClusterInfo(PairsValue(props));
        ok := info.UpdateDefaultWeight(props);
        if ok { ok := info.UpdateHostWeightPairs(props); }
      }
      if ok { Share(hosts, info, now); }
    }

    /** `GetHost` once the eligible hosts are known: the cluster's information takes up the properties, and the
        scheduler makes its choice. `info` tells on which information; no other cluster's is touched. */
    method ChooseAmong(eligibleHosts: Hosts, props: Props, now: int)
      returns (r: Option<HostInfo>, ghost info: RoundRobinClusterInfo)
      requires eligibleHosts != []
      modifies cache, Owner(eligibleHosts, now)
      ensures if old(Existing(eligibleHosts, now)).Some? then info == old(Existing(eligibleHosts, now)).value else fresh(info)
      ensures IsCall(eligibleHosts, Start(old(EntryFor(eligibleHosts, now)), props), r, info.ToInfo())
      ensures r.Some? ==> Shared(cache, eligibleHosts, info, now)
      ensures r == None ==> unchanged(cache)
    {
      var ok, created := CreateCacheEntryForHosts(eligibleHosts, props, now);
      info := created;
      if !ok { return None, info; }
      assert eligibleHosts[0] in eligibleHosts && eligibleHosts[0].host in cache.Live(now);
      var clusterInfo := cache.Get(eligibleHosts[0].host, now);
      var host := clusterInfo.value.ChooseHost(eligibleHosts);
      return Some(host), info;
    }

    lemma OwnerIsNamed(hosts: Hosts, role: Option<Role>, eligible: Hosts, now: int)
      requires forall h :: h in eligible ==> h in hosts && IsEligible(role, h)
      ensures Owner(eligible, now) <= Named(hosts, role, now)
    {
    }

    /** The hosts that take part, sorted. */
    method EligibleHosts(hosts: Hosts, role: Option<Role>) returns (eligible: Hosts)
      ensures IsSorted(Filter(hosts, role), eligible, NameLess)
      ensures forall h :: h in eligible ==> h in hosts && IsEligible(role, h)
    {
      var filtered := FilterHosts(hosts, role);
      NameOrder();
      eligible := SortSlice(filtered, NameLess);
      SameElements(filtered, eligible);
    }

    /** `GetHost`: it chooses among the available hosts of the wanted role, in the order of their names. It works with the
        information of the first of them that has any, or with new information; what that says afterwards is what the
        scheduler makes of it, and all of them share it until it expires. Nothing else changes. */
    method GetHost(hosts: Hosts, role: Option<Role>, props: Props, now: int)
      returns (r: Option<HostInfo>, ghost eligible: Hosts, ghost info: Option<RoundRobinClusterInfo>)
      modifies cache, Named(hosts, role, now)
      ensures IsSorted(Filter(hosts, role), eligible, NameLess)
      ensures info.Some? <==> eligible != []
      ensures eligible == [] ==> r == None
      ensures info.Some? ==>
                && (if old(Existing(eligible, now)).Some? then info == old(Existing(eligible, now)) else fresh(info.value))
                && IsCall(eligible, Start(old(EntryFor(eligible, now)), props), r, info.value.ToInfo())
      ensures r.Some? ==> r.value in hosts && IsEligible(role, r.value) && Shared(cache, eligible, info.value, now)
      ensures r == None ==> unchanged(cache)
      ensures forall other :: other in old(cache.Live(now)).Values && info != Some(other) ==> unchanged(other)
    {
      var eligibleHosts := EligibleHosts(hosts, role);
      eligible, info := eligibleHosts, None;
      if eligibleHosts == [] { return None, eligible, None; }
      OwnerIsNamed(hosts, role, eligibleHosts, now);
      ghost var chosenFrom;
      r, chosenFrom := ChooseAmong(eligibleHosts, props, now);
      info := Some(chosenFrom);
    }

    // -------------------------------------------------------------------------------------------
    // Calls in a row
    // -------------------------------------------------------------------------------------------

    lemma SharedIsExisting(hosts: Hosts, info: RoundRobinClusterInfo, now: int, t: int)
      requires hosts != [] && Shared(cache, hosts, info, now) && t >= now
      ensures Existing(hosts, t) == if t <= now + CACHE_EXPIRE then Some(info) else None
    {
      assert hosts[0] in hosts;
    }

    lemma SharedIsNamed(hosts: Hosts, role: Option<Role>, eligible: Hosts, info: RoundRobinClusterInfo, now: int, t: int)
      requires Shared(cache, eligible, info, now) && t >= now
      requires forall h :: h in hosts && IsEligible(role, h) ==> h in eligible
      ensures Named(hosts, role, t) <= {info}
    {
    }

    lemma NothingAppears(hosts: Hosts, now: int, t: int)
      requires Existing(hosts, now) == None && now <= t
      ensures Existing(hosts, t) == None
    {
      if hosts != [] { NothingAppears(hosts[1..], now, t); }
    }

    /** A call of `GetHost` at time `now`, and what another one at time `next` will find. A refused call changes no more
        than the information it found: without any, the next one finds none. */
    method GetOne(hosts: Hosts, role: Option<Role>, props: Props, now: int, ghost next: int, ghost eligible: Hosts)
      returns (r: Option<HostInfo>)
      requires IsSorted(Filter(hosts, role), eligible, NameLess) && eligible != [] && DistinctNames(eligible) && now <= next
      modifies cache, Named(hosts, role, now)
      ensures IsReply(eligible, Start(old(EntryFor(eligible, now)), props), r)
      ensures r.Some? ==>
                && EntryFor(eligible, next)
                   == (if next <= now + CACHE_EXPIRE
                       then Some(Choose(eligible, Start(old(EntryFor(eligible, now)), props).info)) else None)
                && forall o :: o in Named(hosts, role, next) ==> o in old(Named(hosts, role, now)) || fresh(o)
      ensures r == None && old(Existing(eligible, now)) == None ==> Existing(eligible, next) == None
      ensures r == None && Existing(eligible, next) == old(Existing(eligible, now)) ==>
                EntryFor(eligible, next) == LeftWhenRefused(old(EntryFor(eligible, now)), props)
    {
      ghost var sorted, info;
      SameElements(Filter(hosts, role), eligible);
      OwnerIsNamed(hosts, role, eligible, now);
      r, sorted, info := GetHost(hosts, role, props, now);
      SortedIsUnique(eligible, sorted);
      if r.Some? {
        SharedIsExisting(eligible, info.value, now, next);
        SharedIsNamed(hosts, role, eligible, info.value, now, next);
      } else if Existing(eligible, now) == None {
        NothingAppears(eligible, now, next);
      }
    }

    /** Calls of `GetHost` at these times with the same hosts and properties: the hosts they give are the scheduler's
        choices at these times, up to the first call that fails. */
    method GetHosts(hosts: Hosts, role: Option<Role>, props: Props, times: seq<int>, ghost eligible: Hosts)
      returns (chosen: seq<HostInfo>)
      requires times != [] && forall i, j :: 0 <= i < j < |times| ==> times[i] <= times[j]
      requires IsSorted(Filter(hosts, role), eligible, NameLess) && eligible != [] && DistinctNames(eligible)
      modifies cache, Named(hosts, role, times[0])
      ensures chosen == Picks(eligible, old(EntryFor(eligible, times[0])), props, times)
      decreases |times|
    {
      ghost var entry := EntryFor(eligible, times[0]);
      ghost var next := if |times| > 1 then times[1] else times[0];
      var r := GetOne(hosts, role, props, times[0], next, eligible);
      PicksStep(eligible, entry, props, times);
      if r == None { return []; }
      if |times| == 1 { return [r.value]; }
      var later := GetHosts(hosts, role, props, times[1..], eligible);
      return [r.value] + later;
    }
  }

  /** The hosts that calls at these times choose. */
  function Picks(hosts: Hosts, entry: Option<Info>, props: Props, times: seq<int>): (r: seq<HostInfo>)
    requires hosts != []
    ensures var targets := TimedCalls(hosts, entry, props, times);
            |r| == |targets| && forall i :: 0 <= i < |r| ==> r[i] == hosts[targets[i]]
  {
    var targets := TimedCalls(hosts, entry, props, times);
    seq(|targets|, i requires 0 <= i < |targets| => hosts[targets[i]])
  }

  /** The first of the calls, and the others. */
  lemma PicksStep(hosts: Hosts, entry: Option<Info>, props: Props, times: seq<int>)
    requires hosts != [] && times != []
    ensures Picks(hosts, entry, props, times)
         == if !Start(entry, props).ok then []
            else
              var info := Start(entry, props).info;
              [hosts[Target(hosts, info)]] + Picks(hosts, EntryLeft(Choose(hosts, info), times), props, times[1..])
  {
  }

  lemma {:induction false} CountPicks(hosts: Hosts, targets: seq<nat>, picks: seq<HostInfo>, i: nat)
    requires DistinctNames(hosts) && i < |hosts| && |picks| == |targets|
    requires forall k :: 0 <= k < |targets| ==> targets[k] < |hosts| && picks[k] == hosts[targets[k]]
    ensures multiset(picks)[hosts[i]] == Count(targets, i)
  {
    if targets != [] {
      assert picks == [picks[0]] + picks[1..];
      CountPicks(hosts, targets[1..], picks[1..], i);
      assert targets[0] != i ==> hosts[targets[0]].host != hosts[i].host;
    }
  }

  /** So, as long as host names keep their identifiers and no call comes too late, calls of `GetHost`, as many as the
      weights in effect add up to, give every host exactly as often as its weight says. */
  lemma PicksAreFair(ids: map<string, string>, entry: Option<Info>, first: Props, calls: seq<Call>, hosts: Hosts,
                     props: Props, times: seq<int>, now: Info)
    requires MayFind(ids, entry, first, calls)
    requires hosts != [] && DistinctNames(hosts) && StableIds(ids, hosts)
    requires Start(entry, props) == Outcome(now, true)
    requires Close(times) && |times| == Sum(WeightsOf(hosts, now))
    ensures forall i :: 0 <= i < |hosts| ==> multiset(Picks(hosts, entry, props, times))[hosts[i]] == Weight(now, hosts[i])
  {
    RoundRobinIsFair(ids, entry, first, calls, hosts, props, times, now);
    forall i | 0 <= i < |hosts|
      ensures multiset(Picks(hosts, entry, props, times))[hosts[i]] == Weight(now, hosts[i])
    {
      CountPicks(hosts, TimedCalls(hosts, entry, props, times), Picks(hosts, entry, props, times), i);
    }
  }

  lemma FirstByName(a: Hosts, i: nat)
    requires Ordered(a, NameLess) && i < |a|
    ensures !Less(a[i].host, a[0].host)
  {
    LessIrreflexive(a[0].host);
    assert i > 0 ==> !NameLess(a[i], a[0]);
  }

  lemma SameFirst(a: Hosts, b: Hosts)
    requires Ordered(a, NameLess) && Ordered(b, NameLess) && DistinctNames(a) && a != [] && b != []
    requires forall h :: h in a <==> h in b
    ensures a[0] == b[0]
  {
    assert a[0] in b && b[0] in a;
    var j :| 0 <= j < |b| && b[j] == a[0];
    var i :| 0 <= i < |a| && a[i] == b[0];
    FirstByName(a, i);
    FirstByName(b, j);
    LessTotal(a[0].host, b[0].host);
    assert a[0].host == a[i].host;
  }

  /** Hosts with different names can be sorted by name in one way only. */
  lemma {:induction false} SortedIsUnique(a: Hosts, b: Hosts)
    requires Ordered(a, NameLess) && Ordered(b, NameLess) && multiset(a) == multiset(b) && DistinctNames(a)
    ensures a == b
  {
    SameElements(a, b);
    if a != [] {
      SameFirst(a, b);
      assert a == [a[0]] + a[1..] && b == [b[0]] + b[1..];
      assert multiset(a[1..]) == multiset(a) - multiset{a[0]} == multiset(b[1..]);
      RestOrdered(a);
      RestOrdered(b);
      SortedIsUnique(a[1..], b[1..]);
    }
  }

  lemma RestOrdered(a: Hosts)
    requires Ordered(a, NameLess) && a != []
    ensures Ordered(a[1..], NameLess) && (DistinctNames(a) ==> DistinctNames(a[1..]))
  {
  }

  lemma {:induction false} FilterAppend(hosts: Hosts, h: HostInfo, role: Option<Role>)
    ensures Filter(hosts + [h], role) == Filter(hosts, role) + if IsEligible(role, h) then [h] else []
  {
    if hosts != [] {
      assert (hosts + [h])[1..] == hosts[1..] + [h];
      FilterAppend(hosts[1..], h, role);
    }
  }

  method FilterHosts(hosts: Hosts, role: Option<Role>) returns (result: Hosts)
    ensures result == Filter(hosts, role)
  {
    result := [];
    for i := 0 to |hosts|
      invariant result == Filter(hosts[..i], role)
    {
      FilterAppend(hosts[..i], hosts[i], role);
      assert hosts[..i + 1] == hosts[..i] + [hosts[i]];
      if IsEligible(role, hosts[i]) { result := result + [hosts[i]]; }
    }
    assert hosts[..|hosts|] == hosts;
  }

  predicate IsReply(eligible: Hosts, refreshed: Outcome, r: Option<HostInfo>)
    requires eligible != []
  {
    r == if refreshed.ok then Some(eligible[Target(eligible, refreshed.info)]) else None
  }

  /** What a call does once the properties have been taken up: the scheduler's choice, or nothing. */
  predicate IsCall(eligible: Hosts, refreshed: Outcome, r: Option<HostInfo>, after: Info)
    requires eligible != []
  {
    IsReply(eligible, refreshed, r)
    && after == if refreshed.ok then Choose(eligible, refreshed.info) else refreshed.info
  }
}
