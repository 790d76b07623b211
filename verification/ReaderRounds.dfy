/** A round of `getReaderFailoverConnection` over its readers, on values: what letting go of one candidate after the
    other does to the array that the round and the rounds after it share, and when no reader is lost. */
module ReaderRounds {
  import opened Strings
  import opened Topology
  import opened Network
  import opened Slices
  import opened Sorting

  /** `HostInfo.Equals`. */
  predicate HostEquals(a: HostInfo, b: HostInfo) {
    a.host == b.host && a.port == b.port && a.availability == b.availability && a.role == b.role && a.weight == b.weight
  }

  /** A host that did not do: it could not be reached, or was found and has the wrong role. */
  datatype Rejection = Rejection(host: HostInfo, found: Option<Candidate>)

  /** The host answered that it is a writer. */
  predicate IsWriter(x: Rejection) {
    x.found.Some? && x.found.value.host.role == Writer
  }

  function HostsOf(rejected: seq<Rejection>): (r: Hosts)
    ensures |r| == |rejected| && forall k :: 0 <= k < |rejected| ==> r[k] == rejected[k].host
  {
    seq(|rejected|, k requires 0 <= k < |rejected| => rejected[k].host)
  }

  // ---------------------------------------------------------------------------------------------
  // What a round does to the array
  // ---------------------------------------------------------------------------------------------

  /** The array; how many of its first elements this round has still to try; and how many are for the next round. */
  datatype Round = Round(readers: Hosts, remaining: nat, count: nat)

  predicate IsRound(s: Round) {
    s.remaining <= |s.readers| && s.count <= |s.readers|
  }

  /** `RemoveFromSlice` on the first `count` hosts: what it removes, and how many are left. */
  function Dropping(readers: Hosts, count: nat, host: HostInfo): (r: Removal)
    requires count <= |readers|
    ensures Fits(r, |readers|)
  {
    Removal(count, IndexIn(readers[..count], host, HostEquals))
  }

  function CountAfter(r: Removal): nat
    requires r.length > 0 || r.index == -1
  {
    if r.index == -1 then r.length else r.length - 1
  }

  /** A host that did not do is removed from those still to try, and one that is a writer after that from those for the
      next round as well. */
  function RemovalsFor(s: Round, x: Rejection): (rs: seq<Removal>)
    requires IsRound(s)
    ensures Fit(rs, |s.readers|)
  {
    var first := Dropping(s.readers, s.remaining, x.host);
    if IsWriter(x) then [first, Dropping(AfterRemoval(s.readers, first), s.count, x.host)] else [first]
  }

  function Reject(s: Round, x: Rejection): (r: Round)
    requires IsRound(s)
    ensures IsRound(r) && |r.readers| == |s.readers| && r.count <= s.count
  {
    var rs := RemovalsFor(s, x);
    Round(AfterRemovals(s.readers, rs), CountAfter(rs[0]), if IsWriter(x) then CountAfter(rs[1]) else s.count)
  }

  predicate IsLeft(s: Round, h: HostInfo)
    requires IsRound(s)
  {
    h in s.readers[..s.remaining]
  }

  /** A host still to try is rejected. */
  predicate IsStep(s: Round, x: Rejection, t: Round) {
    IsRound(s) && IsLeft(s, x.host) && t == Reject(s, x)
  }

  /** A round goes through these states, rejecting one host after the other. */
  predicate IsRun(states: seq<Round>, rejected: seq<Rejection>) {
    && |states| == |rejected| + 1 && IsRound(states[0])
    && forall k :: 0 <= k < |rejected| ==> IsStep(states[k], rejected[k], states[k + 1])
  }

  lemma ExtendRun(states: seq<Round>, rejected: seq<Rejection>, x: Rejection, t: Round)
    requires IsRun(states, rejected) && IsStep(states[|rejected|], x, t)
    ensures IsRun(states + [t], rejected + [x])
    ensures HostsOf(rejected + [x]) == HostsOf(rejected) + [x.host]
  {
  }

  lemma ShortenRun(states: seq<Round>, rejected: seq<Rejection>)
    requires IsRun(states, rejected) && rejected != []
    ensures var n := |rejected| - 1;
            && IsRun(states[..n + 1], rejected[..n]) && IsStep(states[n], rejected[n], states[n + 1])
            && rejected == rejected[..n] + [rejected[n]]
  {
  }

  predicate AreAmong(some: Hosts, all: Hosts) {
    forall i :: 0 <= i < |some| ==> some[i] in all
  }

  lemma RemovalsAreAmong(all: Hosts, removals: seq<Removal>)
    requires Fit(removals, |all|)
    ensures AreAmong(AfterRemovals(all, removals), all)
  {
    var left := AfterRemovals(all, removals);
    forall i | 0 <= i < |left| ensures left[i] in all {
      RemovalsKeep(all, removals, left[i]);
    }
  }

  /** A member of a list is found in it, so removing it makes the list shorter. */
  lemma MemberIsFound(s: Hosts, h: HostInfo)
    requires h in s
    ensures IndexIn(s, h, HostEquals) != -1
  {
    var i :| 0 <= i < |s| && s[i] == h;
    assert HostEquals(s[i], h);
  }

  /** There is one host less to try, and none in the array that was not there. */
  lemma StepFacts(s: Round, x: Rejection, t: Round)
    requires IsStep(s, x, t)
    ensures IsRound(t) && |t.readers| == |s.readers| && t.remaining == s.remaining - 1 && t.count <= s.count
    ensures AreAmong(t.readers, s.readers) && x.host in s.readers
  {
    MemberIsFound(s.readers[..s.remaining], x.host);
    RemovalsAreAmong(s.readers, RemovalsFor(s, x));
  }

  lemma {:induction false} RunFacts(states: seq<Round>, rejected: seq<Rejection>)
    requires IsRun(states, rejected)
    ensures var begun, s := states[0], states[|rejected|];
            && IsRound(s) && |s.readers| == |begun.readers| && s.count <= begun.count
            && s.remaining == begun.remaining - |rejected|
            && AreAmong(s.readers, begun.readers) && AreAmong(HostsOf(rejected), begun.readers)
  {
    if rejected != [] {
      var n := |rejected| - 1;
      ShortenRun(states, rejected);
      RunFacts(states[..n + 1], rejected[..n]);
      FactsAfter(states[0], states[n], rejected[..n], rejected[n], states[n + 1]);
    }
  }

  lemma FactsAfter(begun: Round, s: Round, before: seq<Rejection>, x: Rejection, t: Round)
    requires IsStep(s, x, t) && AreAmong(s.readers, begun.readers) && AreAmong(HostsOf(before), begun.readers)
    ensures IsRound(t) && |t.readers| == |s.readers| && t.count <= s.count && t.remaining == s.remaining - 1
    ensures AreAmong(t.readers, begun.readers) && AreAmong(HostsOf(before + [x]), begun.readers)
  {
    StepFacts(s, x, t);
    AmongBefore(t.readers, s.readers, begun.readers);
    AmongToo(before, x, begun.readers);
  }

  lemma AmongBefore(a: Hosts, b: Hosts, c: Hosts)
    requires AreAmong(a, b) && AreAmong(b, c)
    ensures AreAmong(a, c)
  {
    forall i | 0 <= i < |a| ensures a[i] in c {
      var j :| 0 <= j < |b| && b[j] == a[i];
    }
  }

  lemma AmongToo(rejected: seq<Rejection>, x: Rejection, all: Hosts)
    requires AreAmong(HostsOf(rejected), all) && x.host in all
    ensures AreAmong(HostsOf(rejected + [x]), all)
  {
    assert HostsOf(rejected + [x]) == HostsOf(rejected) + [x.host];
  }

  /** One more step. */
  lemma RunOn(states: seq<Round>, rejected: seq<Rejection>, x: Rejection, t: Round)
    requires IsRun(states, rejected) && IsStep(states[|rejected|], x, t)
    ensures IsRun(states + [t], rejected + [x]) && IsRound(t) && t.remaining == states[|rejected|].remaining - 1
    ensures HostsOf(rejected + [x]) == HostsOf(rejected) + [x.host]
  {
    StepFacts(states[|rejected|], x, t);
    ExtendRun(states, rejected, x, t);
  }

  function AllRemovals(states: seq<Round>, rejected: seq<Rejection>): (rs: seq<Removal>)
    requires |states| == |rejected| + 1 && forall s :: s in states ==> IsRound(s)
  {
    if rejected == [] then []
    else
      var n := |rejected| - 1;
      AllRemovals(states[..n + 1], rejected[..n]) + RemovalsFor(states[n], rejected[n])
  }

  /** So a round is a sequence of removals from slices over one array. */
  lemma {:induction false} RoundIsRemovals(states: seq<Round>, rejected: seq<Rejection>)
    requires IsRun(states, rejected)
    ensures forall s :: s in states ==> IsRound(s)
    ensures var begun, rs := states[0].readers, AllRemovals(states, rejected);
            Fit(rs, |begun|) && states[|rejected|].readers == AfterRemovals(begun, rs)
  {
    if rejected != [] {
      var n := |rejected| - 1;
      ShortenRun(states, rejected);
      RoundIsRemovals(states[..n + 1], rejected[..n]);
      StepFacts(states[n], rejected[n], states[n + 1]);
      assert states == states[..n + 1] + [states[n + 1]];
      RemovalsCompose(states[0].readers, AllRemovals(states[..n + 1], rejected[..n]), RemovalsFor(states[n], rejected[n]));
    }
  }

  // ---------------------------------------------------------------------------------------------
  // Hosts still to try
  // ---------------------------------------------------------------------------------------------

  /** The hosts that are not among `out`, in order. */
  function Left(all: Hosts, out: Hosts): (r: Hosts)
    ensures forall h :: h in r <==> h in all && h !in out
  {
    if all == [] then []
    else
      var n := |all| - 1;
      var r := Left(all[..n], out) + if all[n] in out then [] else [all[n]];
      assert all == all[..n] + [all[n]];
      r
  }

  lemma SameHost(all: Hosts, a: HostInfo, b: HostInfo)
    requires DistinctNames(all) && a in all && b in all
    ensures a.host == b.host <==> a == b
    ensures HostEquals(a, b) <==> a == b
  {
    var i :| 0 <= i < |all| && all[i] == a;
    var j :| 0 <= j < |all| && all[j] == b;
    assert i < j || j < i || i == j;
  }

  lemma {:induction false} LeftAlike(all: Hosts, out: Hosts, x: HostInfo)
    requires x !in all
    ensures Left(all, out + [x]) == Left(all, out)
  {
    if all != [] {
      assert all[|all| - 1] in all;
      LeftAlike(all[..|all| - 1], out, x);
    }
  }

  lemma LastGoes(all: Hosts, out: Hosts, x: HostInfo, j: nat)
    requires NoDuplicates(all) && all != [] && all[|all| - 1] == x
    requires j < |Left(all, out)| && Left(all, out)[j] == x
    ensures Left(all, out + [x]) == Without(Left(all, out), j)
  {
    var before := Left(all[..|all| - 1], out);
    LeftAlike(all[..|all| - 1], out, x);
    assert x in Left(all, out) && Left(all, out) == before + [x];
    assert x !in all[..|all| - 1] && x !in before;
  }

  lemma WithoutInFront(before: Hosts, end: Hosts, j: nat)
    requires j < |before|
    ensures Without(before + end, j) == Without(before, j) + end
  {
  }

  lemma EarlierGoes(all: Hosts, out: Hosts, x: HostInfo, j: nat)
    requires all != [] && all[|all| - 1] != x && j < |Left(all[..|all| - 1], out)|
    requires Left(all[..|all| - 1], out + [x]) == Without(Left(all[..|all| - 1], out), j)
    ensures Left(all, out + [x]) == Without(Left(all, out), j)
  {
    var y := all[|all| - 1];
    var before, end := Left(all[..|all| - 1], out), if y in out then [] else [y];
    assert y in out + [x] <==> y in out;
    assert Left(all, out) == before + end && Left(all, out + [x]) == Without(before, j) + end;
    WithoutInFront(before, end, j);
  }

  lemma {:induction false} OneLess(all: Hosts, out: Hosts, x: HostInfo, j: nat)
    requires NoDuplicates(all) && j < |Left(all, out)| && Left(all, out)[j] == x
    ensures Left(all, out + [x]) == Without(Left(all, out), j)
  {
    if all[|all| - 1] == x {
      LastGoes(all, out, x, j);
    } else {
      OneLess(all[..|all| - 1], out, x, j);
      EarlierGoes(all, out, x, j);
    }
  }

  /** All hosts behind this one have been tried. */
  predicate TriedBehind(all: Hosts, host: HostInfo, tried: Hosts) {
    forall i, j :: 0 <= i < j < |all| && all[i] == host ==> all[j] in tried
  }

  lemma TriedBehindLast(all: Hosts, x: HostInfo, out: Hosts)
    requires all != [] && all[|all| - 1] in out
    ensures TriedBehind(all, x, out) <==> TriedBehind(all[..|all| - 1], x, out)
  {
    var before := all[..|all| - 1];
    if TriedBehind(before, x, out) {
      forall i, j | 0 <= i < j < |all| && all[i] == x ensures all[j] in out {
        if j < |before| { assert before[i] == x; }
      }
    }
  }

  lemma {:induction false} LastIsLeft(all: Hosts, out: Hosts, x: HostInfo)
    requires NoDuplicates(all) && x in Left(all, out)
    ensures Left(all, out)[|Left(all, out)| - 1] == x <==> TriedBehind(all, x, out)
  {
    var n := |all| - 1;
    if all[n] in out {
      LastIsLeft(all[..n], out, x);
      TriedBehindLast(all, x, out);
    } else {
      var i :| 0 <= i < |all| && all[i] == x;
    }
  }

  // ---------------------------------------------------------------------------------------------
  // What one rejection does
  // ---------------------------------------------------------------------------------------------

  /** The hosts of the next round are those this round has still to try, `front`, and `tail`. */
  predicate Shape(s: Round, front: Hosts, tail: Hosts) {
    IsRound(s) && s.remaining == |front| && s.count == |front| + |tail| && s.readers[..s.count] == front + tail
  }

  /** All of them are from the list the round began with, and only the last one still to try may be there again. */
  predicate Sound(all: Hosts, front: Hosts, tail: Hosts) {
    && NoDuplicates(front) && (forall h :: h in front + tail ==> h in all)
    && forall h :: h in tail && h in front ==> h == front[|front| - 1]
  }

  /** The part not to be tried any more after `front[j]` was rejected. */
  function TailAfter(front: Hosts, tail: Hosts, x: Rejection, j: nat): Hosts
    requires j < |front|
  {
    if j < |front| - 1 then [front[|front| - 1]] + tail else if IsWriter(x) then tail else [front[j]] + tail
  }

  /** Among hosts of a topology, `Equals` finds the host itself. */
  lemma FoundAt(all: Hosts, s: Hosts, h: HostInfo, j: nat)
    requires DistinctNames(all) && (forall x :: x in s ==> x in all)
    requires j < |s| && s[j] == h && h !in s[..j]
    ensures IndexIn(s, h, HostEquals) == j
  {
    forall k | 0 <= k < j ensures !HostEquals(s[k], h) {
      assert s[..j][k] == s[k];
      SameHost(all, s[k], h);
    }
    FirstIndex(s, h, HostEquals, j);
  }

  lemma NotFound(all: Hosts, s: Hosts, h: HostInfo)
    requires DistinctNames(all) && (forall x :: x in s ==> x in all) && h in all && h !in s
    ensures IndexIn(s, h, HostEquals) == -1
  {
    var i := IndexIn(s, h, HostEquals);
    if i != -1 { SameHost(all, s[i], h); }
  }

  lemma FoundInFront(all: Hosts, s: Round, front: Hosts, tail: Hosts, j: nat)
    requires DistinctNames(all) && Shape(s, front, tail) && Sound(all, front, tail) && j < |front|
    ensures Dropping(s.readers, s.remaining, front[j]) == Removal(|front|, j)
  {
    assert s.readers[..|front|] == s.readers[..s.count][..|front|] == front;
    assert forall h :: h in front ==> h in front + tail;
    FoundAt(all, front, front[j], j);
  }

  /** The first removal. */
  lemma RemovedFromFront(s: Round, front: Hosts, tail: Hosts, j: nat)
    requires Shape(s, front, tail) && j < |front|
    ensures AfterRemoval(s.readers, Removal(|front|, j))[..s.count] == Without(front, j) + ([front[|front| - 1]] + tail)
  {
    var n, c := |front|, s.count;
    assert s.readers[..n] == s.readers[..c][..n] == front;
    assert s.readers[n..c] == s.readers[..c][n..] == tail;
    var shifted := Shifted(front, j);
    assert AfterRemoval(s.readers, Removal(n, j))[..c] == shifted + s.readers[n..c];
  }

  lemma RejectedOnce(s: Round, x: Rejection, first: Removal)
    requires IsRound(s) && !IsWriter(x) && first == Dropping(s.readers, s.remaining, x.host)
    ensures Reject(s, x) == Round(AfterRemoval(s.readers, first), CountAfter(first), s.count)
  {
    RemovedOnce(s.readers, first);
  }

  lemma RejectedReader(all: Hosts, s: Round, front: Hosts, tail: Hosts, x: Rejection, j: nat)
    requires DistinctNames(all) && Shape(s, front, tail) && Sound(all, front, tail) && j < |front| && front[j] == x.host
    requires !IsWriter(x)
    ensures Shape(Reject(s, x), Without(front, j), TailAfter(front, tail, x, j))
  {
    FoundInFront(all, s, front, tail, j);
    RemovedFromFront(s, front, tail, j);
    RejectedOnce(s, x, Removal(|front|, j));
  }

  /** A writer that was not the last one still to try is gone from the array by then. */
  lemma WriterIsGone(all: Hosts, once: Hosts, count: nat, rest: Hosts, tail: Hosts, x: HostInfo)
    requires DistinctNames(all) && count <= |once| && once[..count] == rest + tail && x in all && x !in rest + tail
    requires forall h :: h in rest + tail ==> h in all
    ensures Dropping(once, count, x) == Removal(count, -1)
  {
    NotFound(all, once[..count], x);
  }

  /** One that was the last is still there. */
  lemma WriterIsLast(all: Hosts, once: Hosts, count: nat, rest: Hosts, tail: Hosts, x: HostInfo)
    requires DistinctNames(all) && count <= |once| && once[..count] == rest + ([x] + tail) && x in all && x !in rest
    requires forall h :: h in rest + tail ==> h in all
    ensures Dropping(once, count, x) == Removal(count, |rest|)
    ensures AfterRemoval(once, Removal(count, |rest|))[..count - 1] == rest + tail
  {
    var list := once[..count];
    assert list[..|rest|] == rest && list[|rest|] == x && list[|rest| + 1..] == tail;
    FoundAt(all, list, x, |rest|);
  }

  lemma RejectedTwice(s: Round, x: Rejection, first: Removal, second: Removal, once: Hosts)
    requires IsRound(s) && IsWriter(x) && first == Dropping(s.readers, s.remaining, x.host)
    requires once == AfterRemoval(s.readers, first) && second == Dropping(once, s.count, x.host)
    ensures Reject(s, x) == Round(AfterRemoval(once, second), CountAfter(first), CountAfter(second))
  {
    RemovedTwice(s.readers, first, second);
  }

  lemma RejectedWriterBefore(all: Hosts, s: Round, front: Hosts, tail: Hosts, x: Rejection, j: nat)
    requires DistinctNames(all) && Shape(s, front, tail) && Sound(all, front, tail) && front != []
    requires j < |front| - 1 && front[j] == x.host && IsWriter(x)
    ensures Shape(Reject(s, x), Without(front, j), [front[|front| - 1]] + tail)
  {
    FoundInFront(all, s, front, tail, j);
    RemovedFromFront(s, front, tail, j);
    RestOf(front, j);
    var once, rest, list := AfterRemoval(s.readers, Removal(|front|, j)), Without(front, j), [front[|front| - 1]] + tail;
    WriterIsGone(all, once, s.count, rest, list, x.host);
    RejectedTwice(s, x, Removal(|front|, j), Removal(s.count, -1), once);
  }

  lemma RejectedWriterLast(all: Hosts, s: Round, front: Hosts, tail: Hosts, x: Rejection, j: nat)
    requires DistinctNames(all) && Shape(s, front, tail) && Sound(all, front, tail) && front != []
    requires j == |front| - 1 && front[j] == x.host && IsWriter(x)
    ensures Shape(Reject(s, x), Without(front, j), tail)
  {
    FoundInFront(all, s, front, tail, j);
    RemovedFromFront(s, front, tail, j);
    RestOf(front, j);
    var once := AfterRemoval(s.readers, Removal(|front|, j));
    WriterIsLast(all, once, s.count, Without(front, j), tail, x.host);
    RejectedTwice(s, x, Removal(|front|, j), Removal(s.count, j), once);
  }

  lemma RestOf(front: Hosts, j: nat)
    requires NoDuplicates(front) && j < |front|
    ensures forall h :: h in Without(front, j) <==> h in front && h != front[j]
    ensures NoDuplicates(Without(front, j))
    ensures j < |front| - 1 ==> Without(front, j)[|front| - 2] == front[|front| - 1] != front[j]
  {
    var rest := Without(front, j);
    forall h | h in front && h != front[j] ensures h in rest {
      var k :| 0 <= k < |front| && front[k] == h;
      assert rest[if k < j then k else k - 1] == h;
    }
  }

  lemma RejectedShape(all: Hosts, s: Round, front: Hosts, tail: Hosts, x: Rejection, j: nat)
    requires DistinctNames(all) && Shape(s, front, tail) && Sound(all, front, tail) && j < |front| && front[j] == x.host
    ensures Shape(Reject(s, x), Without(front, j), TailAfter(front, tail, x, j))
    ensures Sound(all, Without(front, j), TailAfter(front, tail, x, j))
  {
    if !IsWriter(x) {
      RejectedReader(all, s, front, tail, x, j);
    } else if j < |front| - 1 {
      RejectedWriterBefore(all, s, front, tail, x, j);
    } else {
      RejectedWriterLast(all, s, front, tail, x, j);
    }
    SoundAfter(all, front, tail, x, j);
  }

  lemma SoundAfter(all: Hosts, front: Hosts, tail: Hosts, x: Rejection, j: nat)
    requires Sound(all, front, tail) && j < |front|
    ensures Sound(all, Without(front, j), TailAfter(front, tail, x, j))
  {
    RestOf(front, j);
  }

  // ---------------------------------------------------------------------------------------------
  // When a round keeps every reader
  // ---------------------------------------------------------------------------------------------

  /** A round over these hosts begins. */
  predicate Begins(s: Round, all: Hosts) {
    s.count == s.remaining <= |s.readers| && s.readers[..s.count] == all && DistinctNames(all)
  }

  /** The k-th host that did not do was tried after all those behind it in the list. */
  predicate InTurn(all: Hosts, rejected: seq<Rejection>, k: nat)
    requires k < |rejected|
  {
    TriedBehind(all, rejected[k].host, HostsOf(rejected[..k]))
  }

  lemma DistinctHosts(all: Hosts)
    requires DistinctNames(all)
    ensures NoDuplicates(all)
  {
  }

  lemma {:induction false} NothingOut(all: Hosts)
    ensures Left(all, []) == all
  {
    if all != [] {
      NothingOut(all[..|all| - 1]);
      assert all[..|all| - 1] + [all[|all| - 1]] == all;
    }
  }

  predicate AnsweredAsWriter(rejected: seq<Rejection>, h: HostInfo) {
    exists k :: 0 <= k < |rejected| && rejected[k].host == h && IsWriter(rejected[k])
  }

  /** What is known after some rejections: those still to try are the others, in order; and of those tried that are no
      writers, the next round has exactly those that were tried in turn. */
  predicate Known(all: Hosts, s: Round, rejected: seq<Rejection>, tail: Hosts) {
    && Shape(s, Left(all, HostsOf(rejected)), tail)
    && Sound(all, Left(all, HostsOf(rejected)), tail)
    && (forall k :: 0 <= k < |rejected| ==> rejected[k].host in all)
    && NoDuplicates(HostsOf(rejected))
    && forall k :: 0 <= k < |rejected| && !IsWriter(rejected[k]) ==>
         (rejected[k].host in tail <==> InTurn(all, rejected, k))
  }

  /** One more rejection changes nothing about those before. */
  lemma EarlierTurns(all: Hosts, before: seq<Rejection>, x: Rejection, k: nat)
    requires k < |before|
    ensures InTurn(all, before + [x], k) <==> InTurn(all, before, k)
  {
    assert (before + [x])[..k] == before[..k];
  }

  lemma NewTurn(all: Hosts, before: seq<Rejection>, x: Rejection, front: Hosts, j: nat)
    requires NoDuplicates(all) && front == Left(all, HostsOf(before)) && j < |front| && front[j] == x.host
    ensures InTurn(all, before + [x], |before|) <==> front[|front| - 1] == x.host
  {
    assert (before + [x])[..|before|] == before;
    LastIsLeft(all, HostsOf(before), x.host);
  }

  lemma ShapeAfter(all: Hosts, s: Round, before: seq<Rejection>, tail: Hosts, x: Rejection, front: Hosts, j: nat)
    requires DistinctNames(all) && Known(all, s, before, tail)
    requires front == Left(all, HostsOf(before)) && j < |front| && front[j] == x.host
    ensures Shape(Reject(s, x), Left(all, HostsOf(before + [x])), TailAfter(front, tail, x, j))
    ensures Sound(all, Left(all, HostsOf(before + [x])), TailAfter(front, tail, x, j))
  {
    DistinctHosts(all);
    assert HostsOf(before + [x]) == HostsOf(before) + [x.host];
    RejectedShape(all, s, front, tail, x, j);
    OneLess(all, HostsOf(before), x.host, j);
  }

  lemma HostsAfter(all: Hosts, before: seq<Rejection>, x: Rejection)
    requires NoDuplicates(HostsOf(before)) && x.host in Left(all, HostsOf(before))
    ensures NoDuplicates(HostsOf(before + [x])) && x.host in all
  {
    assert HostsOf(before + [x]) == HostsOf(before) + [x.host];
  }

  lemma TurnsAfter(all: Hosts, before: seq<Rejection>, tail: Hosts, x: Rejection, front: Hosts, j: nat, k: nat)
    requires DistinctNames(all) && front == Left(all, HostsOf(before)) && j < |front| && front[j] == x.host
    requires Sound(all, front, tail) && k <= |before| && !IsWriter((before + [x])[k])
    requires k < |before| ==> (before[k].host in tail <==> InTurn(all, before, k))
    ensures (before + [x])[k].host in TailAfter(front, tail, x, j) <==> InTurn(all, before + [x], k)
  {
    DistinctHosts(all);
    if k < |before| {
      EarlierTurns(all, before, x, k);
      assert HostsOf(before)[k] in HostsOf(before) && front[j] in front && front[|front| - 1] in front;
    } else {
      NewTurn(all, before, x, front, j);
    }
  }

  lemma KnownAfter(all: Hosts, s: Round, before: seq<Rejection>, tail: Hosts, x: Rejection, front: Hosts, j: nat)
    requires DistinctNames(all) && Known(all, s, before, tail)
    requires front == Left(all, HostsOf(before)) && j < |front| && front[j] == x.host
    ensures Known(all, Reject(s, x), before + [x], TailAfter(front, tail, x, j))
  {
    ShapeAfter(all, s, before, tail, x, front, j);
    HostsAfter(all, before, x);
    TurnsStay(all, before, tail, x, front, j);
  }

  lemma TurnsStay(all: Hosts, before: seq<Rejection>, tail: Hosts, x: Rejection, front: Hosts, j: nat)
    requires DistinctNames(all) && front == Left(all, HostsOf(before)) && j < |front| && front[j] == x.host
    requires Sound(all, front, tail)
    requires forall k :: 0 <= k < |before| && !IsWriter(before[k]) ==>
               (before[k].host in tail <==> InTurn(all, before, k))
    ensures forall k :: 0 <= k < |before + [x]| && !IsWriter((before + [x])[k]) ==>
              ((before + [x])[k].host in TailAfter(front, tail, x, j) <==> InTurn(all, before + [x], k))
  {
    forall k | 0 <= k < |before + [x]| && !IsWriter((before + [x])[k])
      ensures (before + [x])[k].host in TailAfter(front, tail, x, j) <==> InTurn(all, before + [x], k)
    {
      TurnsAfter(all, before, tail, x, front, j, k);
    }
  }

  lemma NothingKnown(all: Hosts, s: Round)
    requires Begins(s, all)
    ensures Known(all, s, [], [])
  {
    DistinctHosts(all);
    NothingOut(all);
    assert HostsOf([]) == [];
  }

  lemma {:induction false} RoundInvariant(all: Hosts, states: seq<Round>, rejected: seq<Rejection>) returns (tail: Hosts)
    requires IsRun(states, rejected) && Begins(states[0], all)
    ensures Known(all, states[|rejected|], rejected, tail)
  {
    if rejected == [] {
      NothingKnown(all, states[0]);
      tail := [];
    } else {
      var n := |rejected| - 1;
      ShortenRun(states, rejected);
      tail := RoundInvariant(all, states[..n + 1], rejected[..n]);
      tail := StepInvariant(all, states[n], rejected[..n], tail, rejected[n], states[n + 1]);
    }
  }

  lemma StepInvariant(all: Hosts, s: Round, before: seq<Rejection>, tail: Hosts, x: Rejection, t: Round)
    returns (after: Hosts)
    requires DistinctNames(all) && Known(all, s, before, tail) && IsStep(s, x, t)
    ensures Known(all, t, before + [x], after)
  {
    var front := Left(all, HostsOf(before));
    var j := StillThere(s, front, tail, x.host);
    KnownAfter(all, s, before, tail, x, front, j);
    after := TailAfter(front, tail, x, j);
  }

  lemma StillThere(s: Round, front: Hosts, tail: Hosts, h: HostInfo) returns (j: nat)
    requires Shape(s, front, tail) && IsLeft(s, h)
    ensures j < |front| && front[j] == h
  {
    assert s.readers[..s.remaining] == (front + tail)[..|front|] == front;
    j :| j < |front| && front[j] == h;
  }

  lemma AnsweredOnce(rejected: seq<Rejection>, k: nat)
    requires NoDuplicates(HostsOf(rejected)) && k < |rejected| && !IsWriter(rejected[k])
    ensures !AnsweredAsWriter(rejected, rejected[k].host)
  {
    var out := HostsOf(rejected);
    forall i | 0 <= i < |rejected| && rejected[i].host == rejected[k].host ensures i == k {
      assert out[i] == rejected[i].host && out[k] == rejected[k].host;
      assert !(i < k) && !(k < i);
    }
  }

  /** A host that was tried and is no writer is the next round's if and only if it was tried in turn. */
  lemma TriedIsKept(all: Hosts, s: Round, rejected: seq<Rejection>, tail: Hosts, k: nat)
    requires Known(all, s, rejected, tail) && k < |rejected| && !IsWriter(rejected[k])
    ensures rejected[k].host in s.readers[..s.count] <==> InTurn(all, rejected, k)
  {
    assert HostsOf(rejected)[k] in HostsOf(rejected);
    assert rejected[k].host !in Left(all, HostsOf(rejected));
  }

  lemma UntriedIsKept(all: Hosts, s: Round, rejected: seq<Rejection>, tail: Hosts, h: HostInfo)
    requires Known(all, s, rejected, tail) && h in all && !AnsweredAsWriter(rejected, h)
    ensures h in s.readers[..s.count]
            || exists k :: 0 <= k < |rejected| && !IsWriter(rejected[k]) && rejected[k].host == h
  {
    var out := HostsOf(rejected);
    if h in out {
      var k :| 0 <= k < |out| && out[k] == h;
      assert rejected[k].host == h;
    } else {
      assert h in Left(all, out) + tail;
    }
  }

  /** A round over distinct hosts leaves all of them to the next round, apart from those that answered that they are
      writers, if and only if every other host that did not do was tried after all those behind it in the list. */
  lemma RoundKeepsExactly(all: Hosts, states: seq<Round>, rejected: seq<Rejection>)
    requires IsRun(states, rejected) && Begins(states[0], all)
    ensures var after := states[|rejected|];
            && IsRound(after)
            && ((forall h :: h in all && !AnsweredAsWriter(rejected, h) ==> h in after.readers[..after.count])
                <==> forall k :: 0 <= k < |rejected| && !IsWriter(rejected[k]) ==> InTurn(all, rejected, k))
  {
    var tail := RoundInvariant(all, states, rejected);
    var after := states[|rejected|];
    forall k | 0 <= k < |rejected| && !IsWriter(rejected[k])
      ensures rejected[k].host in all && !AnsweredAsWriter(rejected, rejected[k].host)
      ensures rejected[k].host in after.readers[..after.count] <==> InTurn(all, rejected, k)
    {
      AnsweredOnce(rejected, k);
      TriedIsKept(all, after, rejected, tail, k);
    }
    forall h | h in all && !AnsweredAsWriter(rejected, h)
      ensures h in after.readers[..after.count]
              || exists k :: 0 <= k < |rejected| && !IsWriter(rejected[k]) && rejected[k].host == h
    {
      UntriedIsKept(all, after, rejected, tail, h);
    }
  }

  lemma OnlyLastInTurn(all: Hosts, rejected: seq<Rejection>, k: nat)
    requires DistinctNames(all) && HostsOf(rejected) == all && k < |all|
    ensures InTurn(all, rejected, k) <==> k == |all| - 1
  {
    var before := HostsOf(rejected[..k]);
    assert before == all[..k] && all[k] == rejected[k].host;
    if k < |all| - 1 {
      assert all[k + 1] !in before;
    }
  }

  /** So a round that tries all hosts in vain from the first to the last leaves the next round the last one only. */
  lemma FirstToLastKeepsOne(all: Hosts, states: seq<Round>, rejected: seq<Rejection>, k: nat)
    requires IsRun(states, rejected) && Begins(states[0], all) && HostsOf(rejected) == all && k < |all|
    requires forall i :: 0 <= i < |rejected| ==> !IsWriter(rejected[i])
    ensures var after := states[|rejected|];
            IsRound(after) && (all[k] in after.readers[..after.count] <==> k == |all| - 1)
  {
    var tail := RoundInvariant(all, states, rejected);
    assert rejected[k].host == HostsOf(rejected)[k];
    TriedIsKept(all, states[|rejected|], rejected, tail, k);
    OnlyLastInTurn(all, rejected, k);
  }
}
