/** Calls of the round robin selector at any times: a call that comes too late finds no entry and starts anew, so what a
    window gives each host depends on when its calls are made. */
module RoundRobinTimes {
  import opened Strings
  import opened Topology
  import opened Fairness
  import opened RoundRobin

  /** This call comes later than an entry lives after the call before. */
  predicate ComesLate(times: seq<int>, k: nat) {
    0 < k < |times| && times[k] > times[k - 1] + CACHE_EXPIRE
  }

  /** How many calls there are up to the first late one. */
  function FirstRun(times: seq<int>): (k: nat)
    ensures k <= |times| && (times != [] ==> k > 0)
    ensures k < |times| ==> ComesLate(times, k)
    decreases |times|
  {
    if |times| <= 1 then |times| else if ComesLate(times, 1) then 1 else 1 + FirstRun(times[1..])
  }

  lemma {:induction false} FirstRunIsClose(times: seq<int>)
    ensures Close(times[..FirstRun(times)])
    ensures FirstRun(times) == |times| <==> Close(times)
    decreases |times|
  {
    if |times| > 1 && !ComesLate(times, 1) {
      var later, k := times[1..], FirstRun(times);
      FirstRunIsClose(later);
      forall i | 0 < i < k ensures times[i] <= times[i - 1] + CACHE_EXPIRE {
        if i > 1 { assert later[..k - 1][i - 1] <= later[..k - 1][i - 2] + CACHE_EXPIRE; }
      }
    } else if |times| > 1 {
      assert !Close(times);
    }
  }

  // ---------------------------------------------------------------------------------------------
  // A late call starts anew
  // ---------------------------------------------------------------------------------------------

  lemma FirstOfCalls(hosts: Hosts, entry: Option<Info>, props: Props, times: seq<int>, next: Option<Info>)
    requires hosts != [] && times != [] && Start(entry, props).ok
    requires next == EntryLeft(Choose(hosts, Start(entry, props).info), times)
    ensures TimedCalls(hosts, entry, props, times)
         == [Target(hosts, Start(entry, props).info)] + TimedCalls(hosts, next, props, times[1..])
  {
  }

  /** A late call finds nothing. */
  lemma SecondCallLate(hosts: Hosts, entry: Option<Info>, props: Props, times: seq<int>)
    requires hosts != [] && ComesLate(times, 1) && Start(entry, props).ok
    ensures TimedCalls(hosts, entry, props, times)
         == TimedCalls(hosts, entry, props, times[..1]) + TimedCalls(hosts, None, props, times[1..])
  {
    var info := Choose(hosts, Start(entry, props).info);
    FirstOfCalls(hosts, entry, props, times, None);
    FirstOfCalls(hosts, entry, props, times[..1], None);
    assert TimedCalls(hosts, None, props, times[..1][1..]) == [];
  }

  /** What the first call does does not depend on how many follow the second. */
  lemma FirstAndSecond(hosts: Hosts, entry: Option<Info>, props: Props, times: seq<int>, k: nat)
    returns (target: nat, next: Option<Info>)
    requires hosts != [] && 1 < k <= |times| && TimedCalls(hosts, entry, props, times[..k]) != []
    ensures TimedCalls(hosts, entry, props, times) == [target] + TimedCalls(hosts, next, props, times[1..])
    ensures TimedCalls(hosts, entry, props, times[..k]) == [target] + TimedCalls(hosts, next, props, times[1..][..k - 1])
  {
    var info := Choose(hosts, Start(entry, props).info);
    target, next := Target(hosts, Start(entry, props).info), EntryLeft(info, times);
    assert times[..k][1..] == times[1..][..k - 1];
    FirstOfCalls(hosts, entry, props, times, next);
    FirstOfCalls(hosts, entry, props, times[..k], next);
  }

  lemma RestOfTimes(times: seq<int>, k: nat)
    requires 1 < k && ComesLate(times, k)
    ensures times[1..][k - 1..] == times[k..] && ComesLate(times[1..], k - 1)
  {
  }

  lemma InFront(target: nat, later: seq<nat>, before: seq<nat>, after: seq<nat>)
    requires later == before + after
    ensures [target] + later == ([target] + before) + after
  {
  }

  /** When all calls before a late one go through, that one and those after it choose as if there had been none before. */
  lemma {:induction false} LateCallStartsAnew(hosts: Hosts, entry: Option<Info>, props: Props, times: seq<int>, k: nat)
    requires hosts != [] && ComesLate(times, k) && |TimedCalls(hosts, entry, props, times[..k])| == k
    ensures TimedCalls(hosts, entry, props, times)
         == TimedCalls(hosts, entry, props, times[..k]) + TimedCalls(hosts, None, props, times[k..])
    decreases k
  {
    if k == 1 {
      SecondCallLate(hosts, entry, props, times);
    } else {
      LaterCallLate(hosts, entry, props, times, k);
    }
  }

  lemma {:induction false} LaterCallLate(hosts: Hosts, entry: Option<Info>, props: Props, times: seq<int>, k: nat)
    requires hosts != [] && ComesLate(times, k) && |TimedCalls(hosts, entry, props, times[..k])| == k > 1
    ensures TimedCalls(hosts, entry, props, times)
         == TimedCalls(hosts, entry, props, times[..k]) + TimedCalls(hosts, None, props, times[k..])
    decreases k, 0
  {
    var target, next := FirstAndSecond(hosts, entry, props, times, k);
    RestOfTimes(times, k);
    LateCallStartsAnew(hosts, next, props, times[1..], k - 1);
    InFront(target, TimedCalls(hosts, next, props, times[1..]), TimedCalls(hosts, next, props, times[1..][..k - 1]),
            TimedCalls(hosts, None, props, times[k..]));
  }

  lemma StandsReady(hosts: Hosts, entry: Option<Info>, props: Props)
    requires hosts != [] && (entry.Some? ==> GoodInfo(entry.value))
    ensures var now := Start(entry, props).info;
            GoodInfo(now) && Weights(WeightsOf(hosts, now)) && Stands(WeightsOf(hosts, now), PositionOf(hosts, now))
  {
    StartIsGood(entry, props);
  }

  /** The calls up to the first late one are choices in a row, and the others start anew. */
  lemma CallsUpToTheFirstLate(hosts: Hosts, entry: Option<Info>, props: Props, times: seq<int>, now: Info, k: nat)
    requires hosts != [] && DistinctNames(hosts) && (entry.Some? ==> GoodInfo(entry.value))
    requires Start(entry, props) == Outcome(now, true) && k == FirstRun(times)
    ensures Weights(WeightsOf(hosts, now)) && Stands(WeightsOf(hosts, now), PositionOf(hosts, now))
    ensures TimedCalls(hosts, entry, props, times)
         == Choices(WeightsOf(hosts, now), PositionOf(hosts, now), k) + TimedCalls(hosts, None, props, times[k..])
  {
    FirstRunIsClose(times);
    CloseCallsAreChoices(hosts, entry, props, times[..k], now);
    if k < |times| {
      LateCallStartsAnew(hosts, entry, props, times, k);
    } else {
      assert times[..k] == times && TimedCalls(hosts, None, props, times[k..]) == [];
    }
  }

  // ---------------------------------------------------------------------------------------------
  // How often each host is chosen
  // ---------------------------------------------------------------------------------------------

  /** How often these calls give host `i`, in terms of weights, the position found and how many calls there are between
      late ones. Calls after a late one get nothing when no new entry can be made. */
  function Tally(hosts: Hosts, entry: Option<Info>, props: Props, times: seq<int>, i: nat): int
    requires hosts != [] && i < |hosts| && (entry.Some? ==> GoodInfo(entry.value))
    decreases |times|
  {
    if times == [] || !Start(entry, props).ok then 0
    else
      var now, k := Start(entry, props).info, FirstRun(times);
      StandsReady(hosts, entry, props);
      ServedFrom(WeightsOf(hosts, now), PositionOf(hosts, now), k, i) + Tally(hosts, None, props, times[k..], i)
  }

  lemma {:induction false} TallyIsExact(hosts: Hosts, entry: Option<Info>, props: Props, times: seq<int>, i: nat)
    requires hosts != [] && DistinctNames(hosts) && i < |hosts| && (entry.Some? ==> GoodInfo(entry.value))
    ensures Count(TimedCalls(hosts, entry, props, times), i) == Tally(hosts, entry, props, times, i)
    decreases |times|
  {
    if times != [] && Start(entry, props).ok {
      var now, k := Start(entry, props).info, FirstRun(times);
      CallsUpToTheFirstLate(hosts, entry, props, times, now, k);
      var w, p := WeightsOf(hosts, now), PositionOf(hosts, now);
      CountConcat(Choices(w, p, k), TimedCalls(hosts, None, props, times[k..]), i);
      ServedFromExactly(w, p, k, i);
      TallyIsExact(hosts, None, props, times[k..], i);
    }
  }

  /** Whatever entry there is and whenever the calls come: when a window is fair. */
  lemma WindowIsFairExactly(hosts: Hosts, entry: Option<Info>, props: Props, times: seq<int>, w: seq<int>)
    requires hosts != [] && DistinctNames(hosts) && (entry.Some? ==> GoodInfo(entry.value)) && |w| == |hosts|
    ensures FairWindow(hosts, entry, props, times, w)
       <==> Sum(w) == |times| > 0 && forall i :: 0 <= i < |hosts| ==> Tally(hosts, entry, props, times, i) == w[i]
  {
    forall i | 0 <= i < |hosts|
      ensures Count(TimedCalls(hosts, entry, props, times), i) == Tally(hosts, entry, props, times, i)
    {
      TallyIsExact(hosts, entry, props, times, i);
    }
  }

  // ---------------------------------------------------------------------------------------------
  // Windows on a new entry
  // ---------------------------------------------------------------------------------------------

  lemma NewEntryStands(hosts: Hosts, props: Props, now: Info)
    requires hosts != [] && Fresh(props) == Outcome(now, true)
    ensures GoodInfo(now) && Weights(WeightsOf(hosts, now)) && Stands(WeightsOf(hosts, now), PositionOf(hosts, now))
    ensures PositionOf(hosts, now).last == -1
  {
    StandsReady(hosts, None, props);
    FreshIsGood(props);
  }

  lemma TallyOnNewEntry(hosts: Hosts, props: Props, now: Info, times: seq<int>, i: nat)
    requires hosts != [] && i < |hosts| && Fresh(props) == Outcome(now, true) && times != []
    ensures var w, p := WeightsOf(hosts, now), PositionOf(hosts, now);
            && Weights(w) && Stands(w, p)
            && Tally(hosts, None, props, times, i)
               == ServedFrom(w, p, FirstRun(times), i) + Tally(hosts, None, props, times[FirstRun(times)..], i)
  {
    StandsReady(hosts, None, props);
  }

  /** The last host's share: nothing until the others have had theirs. */
  function LastShare(calls: int, others: int): int {
    if calls > others then calls - others else 0
  }

  lemma LastIsServedItsShare(w: seq<int>, p: Position, k: nat)
    requires Weights(w) && Stands(w, p) && p.last == -1 && k <= Sum(w)
    ensures ServedFrom(w, p, k, |w| - 1) == LastShare(k, Sum(w) - w[|w| - 1])
  {
    LastIsServedLast(w, p, k);
  }

  /** The calls up to the first late one give the last host its share of them. */
  lemma TallyOfLast(hosts: Hosts, props: Props, now: Info, times: seq<int>, w: seq<int>, last: nat)
    requires hosts != [] && Fresh(props) == Outcome(now, true) && times != []
    requires w == WeightsOf(hosts, now) && last == |w| - 1 && |times| <= Sum(w)
    ensures Tally(hosts, None, props, times, last)
         == LastShare(FirstRun(times), Sum(w) - w[last]) + Tally(hosts, None, props, times[FirstRun(times)..], last)
  {
    NewEntryStands(hosts, props, now);
    TallyOnNewEntry(hosts, props, now, times, last);
    LastIsServedItsShare(w, PositionOf(hosts, now), FirstRun(times));
  }

  /** Two parts of a window give the last host no more than the whole would, and less if the whole gave it something. */
  lemma SharesOfParts(a: nat, b: nat, others: int, rest: int)
    requires others >= 0 && 0 <= rest <= LastShare(b, others)
    ensures 0 <= LastShare(a, others) + rest <= LastShare(a + b, others)
    ensures a > 0 && b > 0 && others > 0 && a + b > others ==> LastShare(a, others) + rest < a + b - others
  {
  }

  /** What the parts of these calls give the last host. */
  function LastShares(times: seq<int>, others: int): int
    decreases |times|
  {
    if times == [] then 0
    else LastShare(FirstRun(times), others) + LastShares(times[FirstRun(times)..], others)
  }

  lemma {:induction false} LastSharesBounded(times: seq<int>, others: int)
    requires others >= 0
    ensures 0 <= LastShares(times, others) <= LastShare(|times|, others)
    ensures others > 0 && |times| > others && FirstRun(times) < |times| ==> LastShares(times, others) < |times| - others
    decreases |times|
  {
    if times != [] {
      var later := times[FirstRun(times)..];
      LastSharesBounded(later, others);
      SharesOfParts(FirstRun(times), |later|, others, LastShares(later, others));
    }
  }

  /** What the other hosts weigh. */
  predicate OthersWeighing(hosts: Hosts, now: Info, others: int) {
    hosts != [] && others == Sum(WeightsOf(hosts, now)) - WeightsOf(hosts, now)[|hosts| - 1]
  }

  lemma {:induction false} TallyIsLastShares(hosts: Hosts, props: Props, now: Info, times: seq<int>, others: int)
    requires hosts != [] && Fresh(props) == Outcome(now, true) && OthersWeighing(hosts, now, others)
    requires |times| <= Sum(WeightsOf(hosts, now))
    ensures Tally(hosts, None, props, times, |hosts| - 1) == LastShares(times, others)
    decreases |times|
  {
    if times != [] {
      TallyOfLast(hosts, props, now, times, WeightsOf(hosts, now), |hosts| - 1);
      TallyIsLastShares(hosts, props, now, times[FirstRun(times)..], others);
    }
  }

  lemma OthersOfNewEntry(hosts: Hosts, props: Props, now: Info, others: int)
    requires hosts != [] && Fresh(props) == Outcome(now, true) && OthersWeighing(hosts, now, others)
    ensures others >= |hosts| - 1
  {
    NewEntryStands(hosts, props, now);
    OthersWeigh(WeightsOf(hosts, now), |hosts| - 1);
  }

  /** Late calls make up no turns: the last host gets no more than calls in a row would give it, and less when there are
      late ones among as many calls as it takes to reach it. */
  lemma LateCallsStarveLast(hosts: Hosts, props: Props, now: Info, times: seq<int>, others: int, tally: int)
    requires hosts != [] && Fresh(props) == Outcome(now, true) && OthersWeighing(hosts, now, others)
    requires |times| <= Sum(WeightsOf(hosts, now)) && tally == Tally(hosts, None, props, times, |hosts| - 1)
    ensures 0 <= tally <= LastShare(|times|, others)
    ensures |hosts| > 1 && |times| > others && FirstRun(times) < |times| ==> tally < |times| - others
  {
    OthersOfNewEntry(hosts, props, now, others);
    TallyIsLastShares(hosts, props, now, times, others);
    LastSharesBounded(times, others);
  }

  lemma {:induction false} OneHostTakesAll(hosts: Hosts, props: Props, times: seq<int>)
    requires |hosts| == 1 && DistinctNames(hosts) && Fresh(props).ok
    ensures Count(TimedCalls(hosts, None, props, times), 0) == |times|
    decreases |times|
  {
    if times != [] {
      var now, k := Fresh(props).info, FirstRun(times);
      CallsUpToTheFirstLate(hosts, None, props, times, now, k);
      var w, p := WeightsOf(hosts, now), PositionOf(hosts, now);
      OnlyHost(w, p, k);
      CountConcat(Choices(w, p, k), TimedCalls(hosts, None, props, times[k..]), 0);
      OneHostTakesAll(hosts, props, times[k..]);
    }
  }

  lemma SumOfOne(w: seq<int>)
    requires |w| == 1
    ensures Sum(w) == w[0]
  {
    assert w[..0] == [];
  }

  /** On a new entry a window is fair if and only if none of its calls comes late, or there is one host only. */
  lemma NewEntryIsFairExactly(hosts: Hosts, props: Props, times: seq<int>, now: Info)
    requires hosts != [] && DistinctNames(hosts) && Fresh(props) == Outcome(now, true)
    requires |times| == Sum(WeightsOf(hosts, now))
    ensures FairWindow(hosts, None, props, times, WeightsOf(hosts, now)) <==> Close(times) || |hosts| == 1
  {
    NewEntryStands(hosts, props, now);
    var w, last := WeightsOf(hosts, now), |hosts| - 1;
    SumIsPositive(w);
    if Close(times) {
      RoundRobinIsFairExactly(hosts, None, props, times, now);
    } else if |hosts| == 1 {
      OneHostTakesAll(hosts, props, times);
      SumOfOne(w);
    } else {
      FirstRunIsClose(times);
      LateCallsStarveLast(hosts, props, now, times, Sum(w) - w[last], Tally(hosts, None, props, times, last));
      TallyIsExact(hosts, None, props, times, last);
      assert Count(TimedCalls(hosts, None, props, times), last) < w[last];
    }
  }

  lemma EntryWeights(hosts: Hosts)
    requires hosts == [Host("a", "x"), Host("b", "y")]
    ensures WeightsOf(hosts, Entry()) == [5, 1] && Sum([5, 1]) == 6
  {
    assert [5, 1][..1] == [5] && [5][..0] == [];
    assert Sum([5]) == 5;
  }

  /** So idle time matters: with hosts of weights 5 and 1, six calls on a new entry are not fair when any of them comes
      late; the second host is then never chosen. */
  lemma UnfairAfterIdleTime(hosts: Hosts, times: seq<int>)
    requires hosts == [Host("a", "x"), Host("b", "y")] && |times| == 6 && !Close(times)
    ensures Start(None, Weighted()) == Outcome(Entry(), true) && |times| == Sum(WeightsOf(hosts, Entry()))
    ensures !FairWindow(hosts, None, Weighted(), times, WeightsOf(hosts, Entry()))
    ensures Count(TimedCalls(hosts, None, Weighted(), times), 1) == 0
  {
    WeightedEntry();
    EntryWeights(hosts);
    NewEntryIsFairExactly(hosts, Weighted(), times, Entry());
    FirstRunIsClose(times);
    LateCallsStarveLast(hosts, Weighted(), Entry(), times, 5, Tally(hosts, None, Weighted(), times, 1));
    TallyIsExact(hosts, None, Weighted(), times, 1);
  }
}
