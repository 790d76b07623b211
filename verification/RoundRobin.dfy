/** The weighted round robin host selector (`round_robin_host_selector.go`): what one call does to the information kept
    for a cluster, and why the choices are fair. */
module RoundRobin {
  import opened Strings
  import opened Topology
  import opened Fairness
  import TopologyKey
  import Sorting

  const PAIRS_PROPERTY := "roundRobinHostWeightPairs"
  const DEFAULT_PROPERTY := "roundRobinDefaultWeight"
  const DEFAULT_WEIGHT := 1

  /** `ROUND_ROBIN_DEFAULT_CACHE_EXPIRE_NANO`: how long an entry lives after a call that went through. */
  const CACHE_EXPIRE := 600_000_000_000

  /** Properties; `None` is Go's nil map. */
  type Props = Option<map<string, string>>

  /** `RoundRobinClusterInfo`. */
  datatype Info = Info(lastHost: Option<HostInfo>, clusterWeightsMap: map<string, int>, defaultWeight: int,
                       weightCounter: int, lastPairs: string, lastDefault: int)

  /** What an update leaves behind, and whether it went through: a failing one keeps what it changed so far. */
  datatype Outcome = Outcome(info: Info, ok: bool)

  // ---------------------------------------------------------------------------------------------
  // Properties
  // ---------------------------------------------------------------------------------------------

  function Get(props: Props, name: string, default: string): string {
    if props.Some? && name in props.value then props.value[name] else default
  }

  function PairsValue(props: Props): string {
    Get(props, PAIRS_PROPERTY, "")
  }

  function DefaultText(props: Props): string {
    Get(props, DEFAULT_PROPERTY, "1")
  }

  /** The default weight property as an integer; unreadable text counts as 1. */
  function DefaultValue(props: Props): int {
    match Atoi(DefaultText(props))
    case Some(n) => n
    case None => DEFAULT_WEIGHT
  }

  /** A pair `host:weight` as the pattern and the checks after it accept it. */
  function ParsePair(pair: string): Option<(string, int)> {
    var i := IndexOf(pair, ':');
    if i <= 0 || !AllDigits(pair[i + 1..]) then None
    else
      var host := Trim(pair[..i]);
      var weight := Atoi(Trim(pair[i + 1..]));
      if host == "" || weight == None || weight.value < DEFAULT_WEIGHT then None else Some((host, weight.value))
  }

  /** Pairs are stored one by one; the first bad one ends the update and leaves the earlier ones stored. */
  function StorePairs(info: Info, pairs: seq<string>): Outcome
    decreases |pairs|
  {
    if pairs == [] then Outcome(info, true)
    else
      match ParsePair(pairs[0])
      case None => Outcome(info, false)
      case Some((host, weight)) =>
        StorePairs(info.(clusterWeightsMap := info.clusterWeightsMap[host := weight]), pairs[1..])
  }

  /** `updateCachedHostWeightPairsPropsForRoundRobinClusterInfo`. */
  function UpdatePairs(info: Info, props: Props): Outcome {
    if props == None then Outcome(info, true)
    else
      var noted := info.(lastPairs := PairsValue(props));
      if PairsValue(props) == "" then Outcome(noted.(clusterWeightsMap := map[]), true)
      else StorePairs(noted, Split(PairsValue(props), ','))
  }

  /** `updateCachedDefaultWeightPropsForRoundRobinClusterInfo`. */
  function UpdateDefault(info: Info, props: Props): Outcome {
    if props == None then Outcome(info.(defaultWeight := DEFAULT_WEIGHT), true)
    else
      match Atoi(DefaultText(props))
      case None => Outcome(info, false)
      case Some(n) =>
        if n <= 0 then Outcome(info, false) else Outcome(info.(lastDefault := n, defaultWeight := n), true)
  }

  function Restart(info: Info): Info {
    info.(lastHost := None, weightCounter := 0)
  }

  /** An existing entry takes up changed properties. */
  function Refresh(info: Info, props: Props): Outcome {
    var pairs := if props.Some? && PairsValue(props) != info.lastPairs then UpdatePairs(Restart(info), props)
                 else Outcome(info, true);
    if !pairs.ok then pairs
    else if props.Some? && DefaultValue(props) != pairs.info.lastDefault then UpdateDefault(Restart(pairs.info), props)
    else pairs
  }

  /** A new entry. */
  function Fresh(props: Props): Outcome {
    var weight := UpdateDefault(Info(None, map[], DEFAULT_WEIGHT, 0, PairsValue(props), DEFAULT_WEIGHT), props);
    if !weight.ok then weight else UpdatePairs(weight.info, props)
  }

  /** What a call works with: the information of the entry, if there is one, with the properties taken up; or that of a
      new entry. */
  function Start(entry: Option<Info>, props: Props): Outcome {
    match entry
    case Some(info) => Refresh(info, props)
    case None => Fresh(props)
  }

  // ---------------------------------------------------------------------------------------------
  // Choosing
  // ---------------------------------------------------------------------------------------------

  function IndexOfName(hosts: Hosts, name: string): (i: int)
    ensures -1 <= i < |hosts|
    ensures i >= 0 ==> hosts[i].host == name
    ensures i == -1 <==> forall h :: h in hosts ==> h.host != name
  {
    if hosts == [] then -1
    else if hosts[0].host == name then 0
    else
      var i := IndexOfName(hosts[1..], name);
      if i == -1 then -1 else i + 1
  }

  function Weight(info: Info, h: HostInfo): int {
    if h.hostId in info.clusterWeightsMap && info.clusterWeightsMap[h.hostId] != 0
    then info.clusterWeightsMap[h.hostId] else info.defaultWeight
  }

  function LastIndex(hosts: Hosts, info: Info): (i: int)
    ensures -1 <= i < |hosts|
  {
    if info.lastHost == None then -1 else IndexOfName(hosts, info.lastHost.value.host)
  }

  function Target(hosts: Hosts, info: Info): (i: nat)
    requires hosts != []
    ensures i < |hosts|
  {
    var last := LastIndex(hosts, info);
    if info.weightCounter > 0 && last != -1 then last
    else if last != |hosts| - 1 then last + 1
    else 0
  }

  function Choose(hosts: Hosts, info: Info): Info
    requires hosts != []
  {
    var last, target := LastIndex(hosts, info), Target(hosts, info);
    var counter := if info.weightCounter > 0 && last != -1 then info.weightCounter else Weight(info, hosts[target]);
    info.(weightCounter := counter - 1, lastHost := Some(hosts[target]))
  }

  // ---------------------------------------------------------------------------------------------
  // What every call keeps
  // ---------------------------------------------------------------------------------------------

  /** Weights are positive and the counter is not negative. */
  predicate GoodInfo(info: Info) {
    && info.defaultWeight >= 1 && info.weightCounter >= 0
    && forall id :: id in info.clusterWeightsMap ==> info.clusterWeightsMap[id] >= 1
  }

  /** The host chosen last is not to be repeated as often as its weight. */
  predicate Paced(info: Info) {
    info.lastHost.Some? ==> info.weightCounter < Weight(info, info.lastHost.value)
  }

  lemma {:induction false} StoringKeepsGood(info: Info, pairs: seq<string>)
    requires GoodInfo(info)
    ensures GoodInfo(StorePairs(info, pairs).info)
    ensures var after := StorePairs(info, pairs).info;
            && after.lastHost == info.lastHost && after.lastPairs == info.lastPairs
            && after.lastDefault == info.lastDefault
    decreases |pairs|
  {
    if pairs != [] {
      match ParsePair(pairs[0])
      case None =>
      case Some((host, weight)) =>
        StoringKeepsGood(info.(clusterWeightsMap := info.clusterWeightsMap[host := weight]), pairs[1..]);
    }
  }

  lemma UpdatingPairs(info: Info, props: Props)
    requires GoodInfo(info)
    ensures var after := UpdatePairs(info, props).info;
            && GoodInfo(after) && after.lastHost == info.lastHost && after.lastDefault == info.lastDefault
            && (props.Some? ==> after.lastPairs == PairsValue(props))
  {
    if props.Some? && PairsValue(props) != "" {
      StoringKeepsGood(info.(lastPairs := PairsValue(props)), Split(PairsValue(props), ','));
    }
  }

  lemma UpdatingDefault(info: Info, props: Props)
    requires GoodInfo(info)
    ensures var after := UpdateDefault(info, props).info;
            && GoodInfo(after) && after.lastHost == info.lastHost && after.lastPairs == info.lastPairs
            && (props.Some? && UpdateDefault(info, props).ok ==> after.lastDefault == DefaultValue(props))
  {
  }

  /** The first half of a refresh, and the second. */
  lemma Refreshing(info: Info, props: Props)
    requires GoodInfo(info)
    ensures GoodInfo(Refresh(info, props).info)
    ensures Refresh(info, props).info == info || Refresh(info, props).info.lastHost == None
    ensures props.Some? ==> Refresh(info, props).info.lastPairs == PairsValue(props)
    ensures props.Some? && Refresh(info, props).ok ==> Refresh(info, props).info.lastDefault == DefaultValue(props)
  {
    var pairs := if props.Some? && PairsValue(props) != info.lastPairs then UpdatePairs(Restart(info), props)
                 else Outcome(info, true);
    UpdatingPairs(Restart(info), props);
    assert GoodInfo(pairs.info);
    UpdatingDefault(Restart(pairs.info), props);
  }

  lemma FreshIsGood(props: Props)
    ensures GoodInfo(Fresh(props).info) && Fresh(props).info.lastHost == None
  {
    var empty := Info(None, map[], DEFAULT_WEIGHT, 0, PairsValue(props), DEFAULT_WEIGHT);
    UpdatingDefault(empty, props);
    UpdatingPairs(UpdateDefault(empty, props).info, props);
  }

  /** A refresh, even one that fails, keeps the counter where it may be. */
  lemma RefreshKeeps(info: Info, props: Props)
    requires GoodInfo(info)
    ensures GoodInfo(Refresh(info, props).info)
    ensures Paced(info) ==> Paced(Refresh(info, props).info)
  {
    Refreshing(info, props);
  }

  /** So does a choice; the second part needs that the eligible host with the name of the one chosen last is that host. */
  lemma ChoosingKeeps(hosts: Hosts, info: Info)
    requires GoodInfo(info) && hosts != []
    ensures GoodInfo(Choose(hosts, info))
    ensures Paced(info) && KnowsLast(hosts, info) ==> Paced(Choose(hosts, info))
  {
  }

  /** Eligible hosts named like the one chosen last have its identifier. */
  predicate KnowsLast(hosts: Hosts, info: Info) {
    info.lastHost.Some? ==> forall h :: h in hosts && h.host == info.lastHost.value.host ==>
      h.hostId == info.lastHost.value.hostId
  }

  /** Properties are taken up once: with the same ones again, nothing changes. */
  lemma RefreshSettles(info: Info, props: Props, later: Info)
    requires GoodInfo(info) && Refresh(info, props).ok
    requires later.lastPairs == Refresh(info, props).info.lastPairs
    requires later.lastDefault == Refresh(info, props).info.lastDefault
    ensures Refresh(later, props) == Outcome(later, true)
  {
    Refreshing(info, props);
  }

  /** The default weight property is a positive integer. */
  predicate DefaultIsAccepted(props: Props) {
    props.Some? ==> Atoi(DefaultText(props)).Some? && Atoi(DefaultText(props)).value > 0
  }

  /** What a refused call leaves: an entry as far as it was changed, and no entry where there was none. */
  function LeftWhenRefused(entry: Option<Info>, props: Props): Option<Info> {
    if entry == None then None else Some(Start(entry, props).info)
  }

  /** Whether a refused call goes through when it is made again with the same properties. Without an entry it never does.
      With one it does if and only if the default weight was not to be changed, or may be: then the bad pairs count as
      taken up, and the call works with the old pairs and those before the first bad one. */
  lemma RefusedOnceExactly(entry: Option<Info>, props: Props)
    requires (entry.Some? ==> GoodInfo(entry.value)) && !Start(entry, props).ok
    ensures Start(LeftWhenRefused(entry, props), props).ok
       <==> entry.Some? && (DefaultValue(props) == entry.value.lastDefault || DefaultIsAccepted(props))
    ensures Start(LeftWhenRefused(entry, props), props).ok ==>
              Start(LeftWhenRefused(entry, props), props).info.clusterWeightsMap
              == UpdatePairs(entry.value, props).info.clusterWeightsMap
  {
    if entry.Some? {
      var info := entry.value;
      UpdatingPairs(Restart(info), props);
      if props.Some? && PairsValue(props) != info.lastPairs && PairsValue(props) != "" {
        StoringAddsPairs(Restart(info).(lastPairs := PairsValue(props)), info.(lastPairs := PairsValue(props)),
                         Split(PairsValue(props), ','));
      }
    }
  }

  /** The weights stored for these pairs are added to those there were, whatever the rest of the information says. */
  lemma {:induction false} StoringAddsPairs(info: Info, other: Info, pairs: seq<string>)
    requires info.clusterWeightsMap == other.clusterWeightsMap
    ensures StorePairs(info, pairs).info.clusterWeightsMap == StorePairs(other, pairs).info.clusterWeightsMap
    ensures StorePairs(info, pairs).ok == StorePairs(other, pairs).ok
    decreases |pairs|
  {
    if pairs != [] {
      match ParsePair(pairs[0])
      case None =>
      case Some((host, weight)) =>
        var more := info.clusterWeightsMap[host := weight];
        StoringAddsPairs(info.(clusterWeightsMap := more), other.(clusterWeightsMap := more), pairs[1..]);
    }
  }

  lemma {:induction false} StoringKeepsOthers(info: Info, kept: map<string, int>, added: map<string, int>,
                                              pairs: seq<string>)
    ensures StorePairs(info.(clusterWeightsMap := kept + added), pairs).info.clusterWeightsMap
         == kept + StorePairs(info.(clusterWeightsMap := added), pairs).info.clusterWeightsMap
    decreases |pairs|
  {
    if pairs != [] {
      match ParsePair(pairs[0])
      case None =>
      case Some((host, weight)) =>
        assert (kept + added)[host := weight] == kept + added[host := weight];
        StoringKeepsOthers(info, kept, added[host := weight], pairs[1..]);
    }
  }

  /** A new value of the pairs property adds to the pairs of the old one: a host it does not name keeps its weight. Only
      an empty value removes any, and then all. */
  lemma OldPairsAreKept(info: Info, props: Props)
    requires props.Some?
    ensures UpdatePairs(info, props).info.clusterWeightsMap
         == if PairsValue(props) == "" then map[]
            else info.clusterWeightsMap + UpdatePairs(info.(clusterWeightsMap := map[]), props).info.clusterWeightsMap
  {
    if PairsValue(props) != "" {
      assert info.clusterWeightsMap + map[] == info.clusterWeightsMap;
      StoringKeepsOthers(info.(lastPairs := PairsValue(props)), info.clusterWeightsMap, map[],
                         Split(PairsValue(props), ','));
    }
  }

  // ---------------------------------------------------------------------------------------------
  // Fairness
  // ---------------------------------------------------------------------------------------------

  function WeightsOf(hosts: Hosts, info: Info): (w: seq<int>)
    ensures |w| == |hosts| && forall i :: 0 <= i < |hosts| ==> w[i] == Weight(info, hosts[i])
  {
    seq(|hosts|, i requires 0 <= i < |hosts| => Weight(info, hosts[i]))
  }

  function PositionOf(hosts: Hosts, info: Info): Position {
    Position(LastIndex(hosts, info), info.weightCounter)
  }

  lemma {:induction false} NameAt(hosts: Hosts, i: nat)
    requires DistinctNames(hosts) && i < |hosts|
    ensures IndexOfName(hosts, hosts[i].host) == i
  {
    if i > 0 {
      assert hosts[0].host != hosts[i].host;
      NameAt(hosts[1..], i - 1);
    }
  }

  /** One choice is one step of the scheduling core, and leaves the weights alone. */
  lemma ChoosingIsAdvancing(hosts: Hosts, info: Info)
    requires hosts != [] && DistinctNames(hosts) && GoodInfo(info)
    ensures Weights(WeightsOf(hosts, info)) && Stands(WeightsOf(hosts, info), PositionOf(hosts, info))
    ensures Target(hosts, info) == Chosen(WeightsOf(hosts, info), PositionOf(hosts, info))
    ensures PositionOf(hosts, Choose(hosts, info)) == Advance(WeightsOf(hosts, info), PositionOf(hosts, info))
    ensures WeightsOf(hosts, Choose(hosts, info)) == WeightsOf(hosts, info)
  {
    NameAt(hosts, Target(hosts, info));
  }

  /** The choices of `k` calls in a row with the same eligible hosts and properties. */
  function Calls(hosts: Hosts, info: Info, props: Props, k: nat): (targets: seq<nat>)
    requires hosts != []
    decreases k
  {
    if k == 0 || !Refresh(info, props).ok then []
    else
      var refreshed := Refresh(info, props).info;
      [Target(hosts, refreshed)] + Calls(hosts, Choose(hosts, refreshed), props, k - 1)
  }

  lemma {:induction false} CallsAreChoices(hosts: Hosts, info: Info, props: Props, now: Info, k: nat)
    requires hosts != [] && DistinctNames(hosts) && GoodInfo(info) && Refresh(info, props).ok
    requires GoodInfo(now) && now.lastPairs == Refresh(info, props).info.lastPairs
    requires now.lastDefault == Refresh(info, props).info.lastDefault
    ensures Weights(WeightsOf(hosts, now)) && Stands(WeightsOf(hosts, now), PositionOf(hosts, now))
    ensures Calls(hosts, now, props, k) == Choices(WeightsOf(hosts, now), PositionOf(hosts, now), k)
    decreases k
  {
    ChoosingIsAdvancing(hosts, now);
    if k > 0 {
      RefreshSettles(info, props, now);
      ChoosingKeeps(hosts, now);
      CallsAreChoices(hosts, info, props, Choose(hosts, now), k - 1);
    }
  }

  /** The first call takes up the properties, the others find them settled. */
  lemma FirstCallRefreshes(hosts: Hosts, info: Info, props: Props, k: nat)
    requires hosts != [] && GoodInfo(info) && Refresh(info, props).ok
    ensures Calls(hosts, info, props, k) == Calls(hosts, Refresh(info, props).info, props, k)
  {
    RefreshSettles(info, props, Refresh(info, props).info);
  }

  lemma ChoicesFairExactly(hosts: Hosts, now: Info)
    requires hosts != [] && DistinctNames(hosts) && GoodInfo(now)
    ensures var w, p := WeightsOf(hosts, now), PositionOf(hosts, now);
            && Weights(w) && Stands(w, p) && Sum(w) > 0
            && (Fair(w, Choices(w, p, Sum(w))) <==> MayBeFair(hosts, now))
  {
    ChoosingIsAdvancing(hosts, now);
    FairExactly(WeightsOf(hosts, now), PositionOf(hosts, now));
  }

  /** The counter left over is not above the weight of the eligible host named like the one chosen last. */
  predicate MayBeFair(hosts: Hosts, now: Info) {
    LastIndex(hosts, now) == -1 || now.weightCounter <= Weight(now, hosts[LastIndex(hosts, now)]) || |hosts| == 1
  }

  // ---------------------------------------------------------------------------------------------
  // Calls in time
  // ---------------------------------------------------------------------------------------------

  /** The choices of calls at these times with the same eligible hosts and properties, up to the first one that fails.
      When a call comes too late, the entry is gone. */
  function TimedCalls(hosts: Hosts, entry: Option<Info>, props: Props, times: seq<int>): (targets: seq<nat>)
    requires hosts != []
    ensures |targets| <= |times| && forall i :: 0 <= i < |targets| ==> targets[i] < |hosts|
    decreases |times|
  {
    if times == [] || !Start(entry, props).ok then []
    else
      var info := Start(entry, props).info;
      [Target(hosts, info)] + TimedCalls(hosts, EntryLeft(Choose(hosts, info), times), props, times[1..])
  }

  /** What the next call finds. */
  function EntryLeft(info: Info, times: seq<int>): Option<Info>
    requires times != []
  {
    if |times| > 1 && times[1] <= times[0] + CACHE_EXPIRE then Some(info) else None
  }

  /** No call comes later than an entry lives after the call before. */
  predicate Close(times: seq<int>) {
    forall i :: 0 < i < |times| ==> times[i] <= times[i - 1] + CACHE_EXPIRE
  }

  lemma {:induction false} CloseCallsAreCalls(hosts: Hosts, info: Info, props: Props, times: seq<int>)
    requires hosts != [] && Close(times)
    ensures TimedCalls(hosts, Some(info), props, times) == Calls(hosts, info, props, |times|)
    decreases |times|
  {
    if times != [] && Refresh(info, props).ok {
      var next := Choose(hosts, Refresh(info, props).info);
      if |times| > 1 {
        assert times[1] <= times[0] + CACHE_EXPIRE;
        CloseCallsAreCalls(hosts, next, props, times[1..]);
      } else {
        assert TimedCalls(hosts, None, props, times[1..]) == [];
      }
    }
  }

  lemma FreshIsSettled(props: Props)
    requires Fresh(props).ok
    ensures Refresh(Fresh(props).info, props) == Outcome(Fresh(props).info, true)
  {
    var empty := Info(None, map[], DEFAULT_WEIGHT, 0, PairsValue(props), DEFAULT_WEIGHT);
    UpdatingDefault(empty, props);
    UpdatingPairs(UpdateDefault(empty, props).info, props);
  }

  /** A new entry is chosen from as if it had been there. */
  lemma NewEntryCalls(hosts: Hosts, props: Props, times: seq<int>)
    requires hosts != [] && Fresh(props).ok
    ensures TimedCalls(hosts, None, props, times) == TimedCalls(hosts, Some(Fresh(props).info), props, times)
  {
    FreshIsSettled(props);
  }

  lemma StartIsGood(entry: Option<Info>, props: Props)
    requires entry.Some? ==> GoodInfo(entry.value)
    ensures GoodInfo(Start(entry, props).info)
  {
    if entry.Some? { Refreshing(entry.value, props); } else { FreshIsGood(props); }
  }

  lemma CloseCallsAreChoices(hosts: Hosts, entry: Option<Info>, props: Props, times: seq<int>, now: Info)
    requires hosts != [] && DistinctNames(hosts) && (entry.Some? ==> GoodInfo(entry.value)) && Close(times)
    requires Start(entry, props) == Outcome(now, true)
    ensures GoodInfo(now) && Weights(WeightsOf(hosts, now)) && Stands(WeightsOf(hosts, now), PositionOf(hosts, now))
    ensures TimedCalls(hosts, entry, props, times) == Choices(WeightsOf(hosts, now), PositionOf(hosts, now), |times|)
  {
    StartIsGood(entry, props);
    if entry.Some? {
      CloseCallsAreCalls(hosts, entry.value, props, times);
      FirstCallRefreshes(hosts, entry.value, props, |times|);
      CallsAreChoices(hosts, entry.value, props, now, |times|);
    } else {
      NewEntryCalls(hosts, props, times);
      CloseCallsAreCalls(hosts, now, props, times);
      FreshIsSettled(props);
      CallsAreChoices(hosts, now, props, now, |times|);
    }
  }

  /** Calls at these times, as many as the weights in effect add up to, choose every host as often as its weight says. */
  predicate FairWindow(hosts: Hosts, entry: Option<Info>, props: Props, times: seq<int>, w: seq<int>)
    requires hosts != []
  {
    Sum(w) == |times| > 0 && Fair(w, TimedCalls(hosts, entry, props, times))
  }

  /** When no call comes too late for the entry, that is so if and only if the counter left over is not above the weight
      of the eligible host named like the one chosen last, or there is one host only. */
  lemma RoundRobinIsFairExactly(hosts: Hosts, entry: Option<Info>, props: Props, times: seq<int>, now: Info)
    requires hosts != [] && DistinctNames(hosts) && (entry.Some? ==> GoodInfo(entry.value))
    requires Start(entry, props) == Outcome(now, true)
    requires Close(times) && |times| == Sum(WeightsOf(hosts, now))
    ensures FairWindow(hosts, entry, props, times, WeightsOf(hosts, now)) <==> MayBeFair(hosts, now)
  {
    CloseCallsAreChoices(hosts, entry, props, times, now);
    ChoicesFairExactly(hosts, now);
  }

  // ---------------------------------------------------------------------------------------------
  // From any reachable state
  // ---------------------------------------------------------------------------------------------

  /** One call for a cluster: its eligible hosts, in the order of their names, and its properties. */
  datatype Call = Call(hosts: Hosts, props: Props)

  function AfterCall(info: Info, call: Call): Info {
    if call.hosts == [] then info
    else
      var refreshed := Refresh(info, call.props);
      if refreshed.ok then Choose(call.hosts, refreshed.info) else refreshed.info
  }

  /** Where any calls may lead an entry that was created for properties `first`. */
  function Reached(first: Props, calls: seq<Call>): Info {
    if calls == [] then Fresh(first).info else AfterCall(Reached(first, calls[..|calls| - 1]), calls[|calls| - 1])
  }

  /** The same host name always comes with the same identifier. */
  predicate StableIds(ids: map<string, string>, hosts: Hosts) {
    forall h :: h in hosts ==> h.host in ids && ids[h.host] == h.hostId
  }

  lemma {:induction false} ReachedIsGood(ids: map<string, string>, first: Props, calls: seq<Call>)
    ensures GoodInfo(Reached(first, calls))
    ensures (forall c :: c in calls ==> StableIds(ids, c.hosts)) ==>
              var info := Reached(first, calls);
              Paced(info) && (info.lastHost.Some? ==> StableIds(ids, [info.lastHost.value]))
  {
    if calls == [] {
      FreshIsGood(first);
    } else {
      var before, call := Reached(first, calls[..|calls| - 1]), calls[|calls| - 1];
      ReachedIsGood(ids, first, calls[..|calls| - 1]);
      Refreshing(before, call.props);
      if call.hosts != [] {
        ChoosingKeeps(call.hosts, Refresh(before, call.props).info);
        assert call.hosts[Target(call.hosts, Refresh(before, call.props).info)] in call.hosts;
      }
      assert call in calls && forall c :: c in calls[..|calls| - 1] ==> c in calls;
    }
  }

  /** Where an entry may be when a call comes: gone or not made yet, or where calls have led it. */
  predicate MayFind(ids: map<string, string>, entry: Option<Info>, first: Props, calls: seq<Call>) {
    entry.Some? ==> entry.value == Reached(first, calls) && forall c :: c in calls ==> StableIds(ids, c.hosts)
  }

  /** With a new entry, or after any calls whatever, as long as host names keep their identifiers: calls with the same
      eligible hosts and properties, none too late for the entry, as many as the weights in effect add up to, choose
      every host exactly as often as its weight says. */
  lemma RoundRobinIsFair(ids: map<string, string>, entry: Option<Info>, first: Props, calls: seq<Call>, hosts: Hosts,
                         props: Props, times: seq<int>, now: Info)
    requires MayFind(ids, entry, first, calls)
    requires hosts != [] && DistinctNames(hosts) && StableIds(ids, hosts)
    requires Start(entry, props) == Outcome(now, true)
    requires Close(times) && |times| == Sum(WeightsOf(hosts, now))
    ensures FairWindow(hosts, entry, props, times, WeightsOf(hosts, now))
  {
    ReachedIsGood(ids, first, calls);
    FreshIsGood(props);
    if entry.Some? {
      RefreshKeeps(entry.value, props);
      Refreshing(entry.value, props);
    }
    RoundRobinIsFairExactly(hosts, entry, props, times, now);
    var last := LastIndex(hosts, now);
    if last != -1 {
      assert hosts[last] in hosts;
    }
  }

  // ---------------------------------------------------------------------------------------------
  // When a host name changes its identifier
  // ---------------------------------------------------------------------------------------------

  function Weighted(): Props {
    Some(map[PAIRS_PROPERTY := "x:5"])
  }

  function Host(name: string, id: string): HostInfo {
    HostInfo(name, id, 0, Available, Reader, 0, 0)
  }

  lemma WeightedTexts()
    ensures Atoi("1") == Some(1) && Atoi("5") == Some(5) && AllDigits("5")
    ensures PairsValue(Weighted()) == "x:5" && DefaultText(Weighted()) == "1"
  {
    assert IsDigit("1"[0]) && DigitsValue("1"[..0]) == 0 && DigitsValue("1") == 1;
    assert IsDigit("5"[0]) && DigitsValue("5"[..0]) == 0 && DigitsValue("5") == 5;
  }

  lemma WeightedSplit()
    ensures Split("x:5", ',') == ["x:5"] && IndexOf("x:5", ':') == 1
  {
    assert "x:5"[1..] == ":5" && ":5"[1..] == "5";
    assert IndexOf("5", ',') == -1;
    assert IndexOf(":5", ',') == -1;
  }

  lemma WeightedPair()
    ensures ParsePair("x:5") == Some(("x", 5))
  {
    WeightedTexts();
    WeightedSplit();
    assert "x:5"[..1] == "x" && "x:5"[2..] == "5";
    TrimPadded("", "x", "");
    TrimPadded("", "5", "");
    assert "" + "x" + "" == "x" && "" + "5" + "" == "5";
  }

  function Entry(): Info {
    Info(None, map["x" := 5], 1, 0, "x:5", 1)
  }

  lemma WeightedEntry()
    ensures Fresh(Weighted()) == Outcome(Entry(), true)
  {
    WeightedTexts();
    WeightedSplit();
    WeightedPair();
    var noted := Info(None, map[], 1, 0, "x:5", 1);
    assert ["x:5"][1..] == [];
    assert StorePairs(noted, ["x:5"]) == StorePairs(Entry(), []);
  }

  lemma WeightedIsSettled(info: Info)
    requires info.lastPairs == "x:5" && info.lastDefault == 1
    ensures Refresh(info, Weighted()) == Outcome(info, true)
  {
    WeightedTexts();
  }

  lemma OneCall(call: Call)
    requires call == Call([Host("a", "x"), Host("b", "y")], Weighted())
    ensures Reached(Weighted(), [call]) == Info(Some(Host("a", "x")), map["x" := 5], 1, 4, "x:5", 1)
  {
    WeightedEntry();
    WeightedIsSettled(Entry());
    assert [call][..0] == [];
    assert Reached(Weighted(), [call]) == AfterCall(Entry(), call) == Choose(call.hosts, Entry());
  }

  lemma UnfairWindow(info: Info, hosts: Hosts, times: seq<int>)
    requires info == Info(Some(Host("a", "x")), map["x" := 5], 1, 4, "x:5", 1)
    requires hosts == [Host("a", "z"), Host("b", "y")]
    requires Close(times) && |times| == Sum(WeightsOf(hosts, info))
    ensures Start(Some(info), Weighted()) == Outcome(info, true)
    ensures !FairWindow(hosts, Some(info), Weighted(), times, WeightsOf(hosts, info))
  {
    WeightedIsSettled(info);
    NameAt(hosts, 0);
    assert !MayBeFair(hosts, info);
    RoundRobinIsFairExactly(hosts, Some(info), Weighted(), times, info);
  }

  /** Identifiers matter: a host of weight 5 chosen once and then replaced by one of weight 1 under the same name still
      gets the other four turns, and the window is not fair. */
  lemma UnfairAfterIdentifierChange(call: Call, hosts: Hosts, times: seq<int>)
    requires call == Call([Host("a", "x"), Host("b", "y")], Weighted())
    requires hosts == [Host("a", "z"), Host("b", "y")]
    requires Close(times) && |times| == Sum(WeightsOf(hosts, Reached(Weighted(), [call])))
    ensures var info := Reached(Weighted(), [call]);
            && Start(Some(info), Weighted()) == Outcome(info, true)
            && !FairWindow(hosts, Some(info), Weighted(), times, WeightsOf(hosts, info))
  {
    OneCall(call);
    UnfairWindow(Reached(Weighted(), [call]), hosts, times);
  }
}
