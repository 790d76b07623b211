/** The weighted random host selector (`weighted_random_host_selector.go`): every eligible host gets a range of numbers
    as long as its weight, and a random number selects the host whose range it falls into. */
module WeightedRandom {
  import opened Strings
  import opened Topology
  import opened Fairness
  import opened RoundRobin
  import opened RoundRobinSelector

  const WEIGHT_PAIRS_PROPERTY := "weightedRandomHostWeightPairs"

  datatype NumberRange = NumberRange(start: int, end: int)

  predicate IsInNumberRange(r: NumberRange, n: int) {
    r.start <= n <= r.end
  }

  datatype Selection = Selected(host: HostInfo) | BadWeights | NoHosts | UnableToGetHost

  /** A pair of the weight list: as for the round robin, but the pair is trimmed before it is matched, not its parts. */
  function ParseTrimmedPair(pair: string): Option<(string, int)> {
    var i := IndexOf(Trim(pair), ':');
    if i <= 0 || !AllDigits(Trim(pair)[i + 1..]) then None
    else
      var weight := Atoi(Trim(pair)[i + 1..]);
      if weight == None || weight.value <= 0 then None else Some((Trim(pair)[..i], weight.value))
  }

  /** What a list of pairs stores, one after the other; `parse` reads a pair. */
  function StoreAll(parse: string -> Option<(string, int)>, pairs: seq<string>, m: map<string, int>)
    : Option<map<string, int>>
    decreases |pairs|
  {
    if pairs == [] then Some(m)
    else
      match parse(pairs[0])
      case None => None
      case Some((host, weight)) => StoreAll(parse, pairs[1..], m[host := weight])
  }

  /** The pairs of a weight list. */
  function PairsOf(text: string): seq<string> {
    if Trim(text) == "" then [] else Split(text, ',')
  }

  function HostWeightMap(text: string): Option<map<string, int>> {
    StoreAll(ParseTrimmedPair, PairsOf(text), map[])
  }

  predicate NamesHost(parse: string -> Option<(string, int)>, pair: string, h: string) {
    parse(pair).Some? && parse(pair).value.0 == h
  }

  /** The `i`-th pair is the last one for host `h`, and gives it weight `w`. */
  predicate IsLastPair(parse: string -> Option<(string, int)>, pairs: seq<string>, i: nat, h: string, w: int) {
    && i < |pairs| && parse(pairs[i]) == Some((h, w))
    && forall j :: i < j < |pairs| ==> !NamesHost(parse, pairs[j], h)
  }

  /** A bad pair spoils the list. */
  lemma {:induction false} BadPairSpoils(parse: string -> Option<(string, int)>, pairs: seq<string>, m: map<string, int>)
    ensures StoreAll(parse, pairs, m) == None <==> exists i :: 0 <= i < |pairs| && parse(pairs[i]) == None
    decreases |pairs|
  {
    if pairs != [] && parse(pairs[0]).Some? {
      var (host, weight) := parse(pairs[0]).value;
      BadPairSpoils(parse, pairs[1..], m[host := weight]);
      assert forall i :: 0 < i < |pairs| ==> pairs[i] == pairs[1..][i - 1];
    }
  }

  /** A good list gives every host the weight of its last pair. */
  lemma {:induction false} LastPairCounts(parse: string -> Option<(string, int)>, pairs: seq<string>,
                                          m: map<string, int>, h: string)
    requires StoreAll(parse, pairs, m).Some?
    ensures var r := StoreAll(parse, pairs, m).value;
            if exists i :: 0 <= i < |pairs| && NamesHost(parse, pairs[i], h)
            then h in r && exists i :: IsLastPair(parse, pairs, i, h, r[h])
            else (h in r <==> h in m) && (h in m ==> r[h] == m[h])
    decreases |pairs|
  {
    if pairs != [] {
      var (host, weight) := parse(pairs[0]).value;
      var tail, r := pairs[1..], StoreAll(parse, pairs, m).value;
      LastPairCounts(parse, tail, m[host := weight], h);
      assert forall i :: 0 < i < |pairs| ==> pairs[i] == tail[i - 1];
      if k :| 0 <= k < |tail| && NamesHost(parse, tail[k], h) {
        assert NamesHost(parse, pairs[k + 1], h);
        var i: nat :| IsLastPair(parse, tail, i, h, r[h]);
        assert IsLastPair(parse, pairs, i + 1, h, r[h]);
      } else if host == h {
        assert NamesHost(parse, pairs[0], h);
        assert IsLastPair(parse, pairs, 0, h, weight);
      }
    }
  }

  lemma ParsedWeights(pair: string)
    ensures ParseTrimmedPair(pair).Some? ==> 1 <= ParseTrimmedPair(pair).value.1 <= MAX_INT
  {
  }

  /** What the list says of a host: it is in the map exactly when a pair names it, with the weight of the last pair that
      does, which is positive and fits into 64 bits. */
  predicate SaysOf(parse: string -> Option<(string, int)>, pairs: seq<string>, r: map<string, int>, h: string) {
    && (h in r <==> exists i :: 0 <= i < |pairs| && NamesHost(parse, pairs[i], h))
    && (h in r ==> 1 <= r[h] <= MAX_INT && exists i :: 0 <= i < |pairs| && IsLastPair(parse, pairs, i, h, r[h]))
  }

  lemma ListSays(parse: string -> Option<(string, int)>, pairs: seq<string>, h: string)
    requires StoreAll(parse, pairs, map[]).Some?
    requires forall p :: parse(p).Some? ==> 1 <= parse(p).value.1 <= MAX_INT
    ensures SaysOf(parse, pairs, StoreAll(parse, pairs, map[]).value, h)
  {
    var r := StoreAll(parse, pairs, map[]).value;
    LastPairCounts(parse, pairs, map[], h);
    if h in r {
      var i: nat :| IsLastPair(parse, pairs, i, h, r[h]);
      assert parse(pairs[i]).value.1 == r[h];
    }
  }

  lemma HostWeightMapSays(text: string)
    requires HostWeightMap(text).Some?
    ensures forall h :: SaysOf(ParseTrimmedPair, PairsOf(text), HostWeightMap(text).value, h)
  {
    forall p: string ensures ParseTrimmedPair(p).Some? ==> 1 <= ParseTrimmedPair(p).value.1 <= MAX_INT {
      ParsedWeights(p);
    }
    forall h: string ensures SaysOf(ParseTrimmedPair, PairsOf(text), HostWeightMap(text).value, h) {
      ListSays(ParseTrimmedPair, PairsOf(text), h);
    }
  }

  method GetHostWeightMapFromString(text: string) returns (r: Option<map<string, int>>)
    ensures r == HostWeightMap(text)
    ensures r == None <==> exists i :: 0 <= i < |PairsOf(text)| && ParseTrimmedPair(PairsOf(text)[i]) == None
    ensures r.Some? ==> forall h :: SaysOf(ParseTrimmedPair, PairsOf(text), r.value, h)
  {
    var hostWeightMap: map<string, int> := map[];
    BadPairSpoils(ParseTrimmedPair, PairsOf(text), map[]);
    if HostWeightMap(text).Some? { HostWeightMapSays(text); }
    if Trim(text) == "" { return Some(hostWeightMap); }
    var pairs := Split(text, ',');
    for i := 0 to |pairs|
      invariant StoreAll(ParseTrimmedPair, pairs, map[]) == StoreAll(ParseTrimmedPair, pairs[i..], hostWeightMap)
    {
      var pair := ParseTrimmedPair(pairs[i]);
      if pair == None { return None; }
      assert pairs[i..][1..] == pairs[i + 1..];
      hostWeightMap := hostWeightMap[pair.value.0 := pair.value.1];
    }
    return Some(hostWeightMap);
  }

  // ---------------------------------------------------------------------------------------------
  // Ranges
  // ---------------------------------------------------------------------------------------------

  /** A host without a positive weight counts once. */
  function RangeLength(weights: map<string, int>, h: HostInfo): (n: int)
    ensures n >= 1
  {
    if h.host in weights && weights[h.host] > 0 then weights[h.host] else 1
  }

  function Lengths(weights: map<string, int>, hosts: Hosts): (w: seq<int>)
    ensures |w| == |hosts| && forall i :: 0 <= i < |hosts| ==> w[i] == RangeLength(weights, hosts[i])
  {
    seq(|hosts|, i requires 0 <= i < |hosts| => RangeLength(weights, hosts[i]))
  }

  /** The range of the `i`-th host: it begins where the ranges before it end. */
  function RangeOf(w: seq<int>, i: nat): NumberRange
    requires i < |w|
  {
    NumberRange(Sum(w[..i]) + 1, Sum(w[..i + 1]))
  }

  lemma RangeEnds(w: seq<int>, i: nat)
    requires Weights(w) && i < |w|
    ensures RangeOf(w, i).end - RangeOf(w, i).start + 1 == w[i]
    ensures 1 <= RangeOf(w, i).start && RangeOf(w, i).end <= Sum(w)
  {
    assert w[..|w|] == w && w[..0] == [];
    SumStep(w, i);
    SumGrows(w, 0, i);
    SumGrows(w, i + 1, |w|);
  }

  lemma RangesApart(w: seq<int>, i: nat, j: nat)
    requires Weights(w) && i < j < |w|
    ensures RangeOf(w, i).end < RangeOf(w, j).start
  {
    SumGrows(w, i + 1, j);
  }

  /** Ranges are as long as the weights, follow one another without gaps from 1 to the sum of the weights, and so do not
      overlap. */
  lemma RangesPartition(w: seq<int>)
    requires Weights(w)
    ensures RangeOf(w, 0).start == 1 && RangeOf(w, |w| - 1).end == Sum(w)
    ensures forall i :: 0 <= i < |w| ==> RangeOf(w, i).end - RangeOf(w, i).start + 1 == w[i]
    ensures forall i, j :: 0 <= i && j == i + 1 && j < |w| ==> RangeOf(w, j).start == RangeOf(w, i).end + 1
    ensures forall i, j :: 0 <= i < j < |w| ==> RangeOf(w, i).end < RangeOf(w, j).start
  {
    assert w[..0] == [] && w[..|w|] == w;
    forall i | 0 <= i < |w| ensures RangeOf(w, i).end - RangeOf(w, i).start + 1 == w[i] {
      RangeEnds(w, i);
    }
    forall i, j | 0 <= i < j < |w| ensures RangeOf(w, i).end < RangeOf(w, j).start {
      RangesApart(w, i, j);
    }
  }

  /** The host a number selects. */
  function Pick(w: seq<int>, n: int): (i: nat)
    requires Weights(w) && 1 <= n <= Sum(w)
    ensures i < |w| && IsInNumberRange(RangeOf(w, i), n)
  {
    assert w[..|w|] == w;
    PickUpTo(w, n, |w|)
  }

  function PickUpTo(w: seq<int>, n: int, k: nat): (i: nat)
    requires Weights(w) && k <= |w| && 1 <= n <= Sum(w[..k])
    ensures i < k && IsInNumberRange(RangeOf(w, i), n)
  {
    SumStep(w, k - 1);
    if n > Sum(w[..k - 1]) then k - 1 else PickUpTo(w, n, k - 1)
  }

  /** Every number from 1 to the sum of the weights is in exactly one range. */
  lemma PickIsUnique(w: seq<int>, n: int, i: nat)
    requires Weights(w) && 1 <= n <= Sum(w) && i < |w|
    ensures IsInNumberRange(RangeOf(w, i), n) <==> i == Pick(w, n)
  {
    var j := Pick(w, n);
    if i < j { RangesApart(w, i, j); }
    if j < i { RangesApart(w, j, i); }
  }

  /** How many of the numbers from 1 to `n` select the `i`-th host. */
  function Picks(w: seq<int>, i: nat, n: nat): nat
    requires Weights(w) && n <= Sum(w)
  {
    if n == 0 then 0 else Picks(w, i, n - 1) + if Pick(w, n) == i then 1 else 0
  }

  lemma {:induction false} PicksSoFar(w: seq<int>, i: nat, n: nat)
    requires Weights(w) && n <= Sum(w) && i < |w|
    ensures var r := RangeOf(w, i);
            Picks(w, i, n) == if n < r.start then 0 else if n <= r.end then n - r.start + 1 else w[i]
  {
    RangeEnds(w, i);
    if n > 0 {
      PicksSoFar(w, i, n - 1);
      PickIsUnique(w, n, i);
    }
  }

  /** Exactly as many random numbers select a host as its weight says. */
  lemma SelectedByItsWeight(w: seq<int>, i: nat)
    requires Weights(w) && i < |w|
    ensures Sum(w) >= 0 && Picks(w, i, Sum(w)) == w[i]
  {
    RangeEnds(w, i);
    PicksSoFar(w, i, Sum(w));
  }

  // ---------------------------------------------------------------------------------------------
  // The selector
  // ---------------------------------------------------------------------------------------------

  function RangesOf(w: seq<int>): (rs: seq<NumberRange>)
    ensures |rs| == |w| && forall i :: 0 <= i < |w| ==> rs[i] == RangeOf(w, i)
  {
    seq(|w|, i requires 0 <= i < |w| => RangeOf(w, i))
  }

  /** The map the loop builds: each range leads to its host. */
  ghost predicate IsRangeMap(ranges: map<NumberRange, HostInfo>, rs: seq<NumberRange>, hosts: Hosts)
    requires |rs| == |hosts|
  {
    && (forall i :: 0 <= i < |rs| ==> rs[i] in ranges && ranges[rs[i]] == hosts[i])
    && (forall r :: r in ranges ==> r in rs)
  }

  lemma AddRange(ranges: map<NumberRange, HostInfo>, rs: seq<NumberRange>, hosts: Hosts, r: NumberRange, h: HostInfo)
    requires |rs| == |hosts| && IsRangeMap(ranges, rs, hosts) && r !in rs
    ensures IsRangeMap(ranges[r := h], rs + [r], hosts + [h])
  {
    forall i | 0 <= i < |rs| ensures rs[i] != r {
      assert rs[i] in rs;
    }
  }

  lemma NextRange(w: seq<int>, k: nat, count: int)
    requires Weights(w) && k < |w| && count == Sum(w[..k]) + 1
    ensures RangesOf(w)[k] == NumberRange(count, count + w[k] - 1) && RangesOf(w)[k] !in RangesOf(w)[..k]
    ensures count + w[k] == Sum(w[..k + 1]) + 1
    ensures RangesOf(w)[..k + 1] == RangesOf(w)[..k] + [RangesOf(w)[k]]
  {
    SumStep(w, k);
    RangeEnds(w, k);
    forall i | 0 <= i < k ensures RangesOf(w)[i] != RangesOf(w)[k] {
      RangesApart(w, i, k);
    }
  }

  /** The loop that hands out ranges. */
  method BuildRanges(weights: map<string, int>, hosts: Hosts, ghost w: seq<int>)
    returns (ranges: map<NumberRange, HostInfo>, count: int)
    requires hosts != [] && w == Lengths(weights, hosts)
    ensures IsRangeMap(ranges, RangesOf(w), hosts) && count == Sum(w) + 1
  {
    ranges, count := map[], 1;
    ghost var rs := RangesOf(w);
    assert w[..0] == [];
    for k := 0 to |hosts|
      invariant count == Sum(w[..k]) + 1 && IsRangeMap(ranges, rs[..k], hosts[..k])
    {
      NextRange(w, k, count);
      AddRange(ranges, rs[..k], hosts[..k], rs[k], hosts[k]);
      assert hosts[..k + 1] == hosts[..k] + [hosts[k]];
      var host := hosts[k];
      if host.host in weights && weights[host.host] > 0 {
        var rangeStart := count;
        var rangeEnd := count + weights[host.host] - 1;
        ranges := ranges[NumberRange(rangeStart, rangeEnd) := host];
        count := count + weights[host.host];
      } else {
        ranges := ranges[NumberRange(count, count) := host];
        count := count + 1;
      }
    }
    assert w[..|w|] == w && rs[..|rs|] == rs && hosts[..|hosts|] == hosts;
  }

  /** The loop over the map, in any order: it finds the one host whose range holds the number, or none when the number
      is out of bounds. */
  method FindInRanges(ranges: map<NumberRange, HostInfo>, n: int, ghost w: seq<int>, ghost hosts: Hosts)
    returns (r: Option<HostInfo>)
    requires Weights(w) && |w| == |hosts| && IsRangeMap(ranges, RangesOf(w), hosts)
    ensures r == if 1 <= n <= Sum(w) then Some(hosts[Pick(w, n)]) else None
  {
    var left := ranges.Keys;
    while left != {}
      invariant left <= ranges.Keys
      invariant 1 <= n <= Sum(w) ==> RangesOf(w)[Pick(w, n)] in left
      decreases left
    {
      var range :| range in left;
      if IsInNumberRange(range, n) {
        ghost var i :| 0 <= i < |w| && range == RangesOf(w)[i];
        RangeEnds(w, i);
        PickIsUnique(w, n, i);
        return Some(ranges[range]);
      }
      left := left - {range};
    }
    return None;
  }

  /** `GetHost` once weights and eligible hosts are known. */
  method SelectAmong(eligibleHosts: Hosts, weights: map<string, int>, draw: int -> int) returns (r: Selection)
    ensures IsSelection(weights, eligibleHosts, draw, r)
  {
    if eligibleHosts == [] { return NoHosts; }
    ghost var w := Lengths(weights, eligibleHosts);
    var ranges, count := BuildRanges(weights, eligibleHosts, w);
    var randomNumber := draw(count - 1) + 1;
    var host := FindInRanges(ranges, randomNumber, w, eligibleHosts);
    return if host == None then UnableToGetHost else Selected(host.value);
  }

  class WeightedRandomHostSelector {
    /** Empty until weights are set or read from the properties. */
    var hostWeightMap: map<string, int>

    constructor ()
      ensures hostWeightMap == map[]
    {
      hostWeightMap := map[];
    }

    /** `GetHost`; `draw(n)` is the random number below `n`. Weights that were set are used as long as there are any;
        otherwise they are read from the properties and kept. */
    method GetHost(hosts: Hosts, role: Option<Role>, props: Props, draw: int -> int) returns (r: Selection)
      modifies this
      ensures var weights := InEffect(old(hostWeightMap), props);
              if weights == None then r == BadWeights && hostWeightMap == map[]
              else hostWeightMap == weights.value && IsSelection(weights.value, Filter(hosts, role), draw, r)
    {
      if hostWeightMap == map[] {
        var parsed := GetHostWeightMapFromString(Get(props, WEIGHT_PAIRS_PROPERTY, ""));
        if parsed == None { return BadWeights; }
        hostWeightMap := parsed.value;
      }
      var eligibleHosts := FilterHosts(hosts, role);
      r := SelectAmong(eligibleHosts, hostWeightMap, draw);
    }
  }

  function InEffect(given: map<string, int>, props: Props): Option<map<string, int>> {
    if given != map[] then Some(given) else HostWeightMap(Get(props, WEIGHT_PAIRS_PROPERTY, ""))
  }

  /** The selection depends on the number drawn, not on the order the map is iterated in. */
  predicate IsSelection(weights: map<string, int>, eligible: Hosts, draw: int -> int, r: Selection) {
    if eligible == [] then r == NoHosts
    else
      var w := Lengths(weights, eligible);
      var n := draw(Sum(w)) + 1;
      r == if 1 <= n <= Sum(w) then Selected(eligible[Pick(w, n)]) else UnableToGetHost
  }

  /** A proper random number always selects: the final error cannot happen. */
  lemma FinalErrorIsUnreachable(weights: map<string, int>, eligible: Hosts, draw: int -> int, r: Selection)
    requires IsSelection(weights, eligible, draw, r)
    requires forall n :: n > 0 ==> 0 <= draw(n) < n
    ensures r != UnableToGetHost
    ensures r.Selected? <==> eligible != []
    ensures r.Selected? ==> r.host in eligible
  {
    if eligible != [] {
      var w := Lengths(weights, eligible);
      RangeEnds(w, 0);
    }
  }
}
