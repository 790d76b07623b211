/** The scheduling core of the weighted round robin: positions, weights and counters only. A host is chosen as many
    times in a row as its weight says, then it is the next one's turn. */
module Fairness {

  /** Where the scheduler stands: the host chosen last, -1 for none that still takes part, and how often that host is
      to be chosen again. */
  datatype Position = Position(last: int, counter: int)

  predicate Weights(w: seq<int>) {
    w != [] && forall i :: 0 <= i < |w| ==> w[i] >= 1
  }

  predicate Stands(w: seq<int>, p: Position) {
    -1 <= p.last < |w| && p.counter >= 0
  }

  function Turn(n: nat, last: int): (i: nat)
    requires n > 0 && -1 <= last < n
    ensures i < n
  {
    if last != n - 1 then last + 1 else 0
  }

  function Chosen(w: seq<int>, p: Position): (i: nat)
    requires Weights(w) && Stands(w, p)
    ensures i < |w|
  {
    if p.counter > 0 && p.last != -1 then p.last else Turn(|w|, p.last)
  }

  function Advance(w: seq<int>, p: Position): (q: Position)
    requires Weights(w) && Stands(w, p)
    ensures Stands(w, q) && q.last == Chosen(w, p)
  {
    var i := Chosen(w, p);
    Position(i, if p.counter > 0 && p.last != -1 then p.counter - 1 else w[i] - 1)
  }

  function Choices(w: seq<int>, p: Position, k: nat): (r: seq<nat>)
    requires Weights(w) && Stands(w, p)
    ensures |r| == k
    decreases k
  {
    if k == 0 then [] else [Chosen(w, p)] + Choices(w, Advance(w, p), k - 1)
  }

  function After(w: seq<int>, p: Position, k: nat): (q: Position)
    requires Weights(w) && Stands(w, p)
    ensures Stands(w, q)
    decreases k
  {
    if k == 0 then p else After(w, Advance(w, p), k - 1)
  }

  function Count(s: seq<nat>, i: nat): nat {
    if s == [] then 0 else (if s[0] == i then 1 else 0) + Count(s[1..], i)
  }

  function Sum(w: seq<int>): int {
    if w == [] then 0 else Sum(w[..|w| - 1]) + w[|w| - 1]
  }

  /** Everybody was chosen exactly as often as their weight says. */
  predicate Fair(w: seq<int>, choices: seq<nat>) {
    forall i :: 0 <= i < |w| ==> Count(choices, i) == w[i]
  }

  // ---------------------------------------------------------------------------------------------
  // Splitting runs
  // ---------------------------------------------------------------------------------------------

  lemma {:induction false} CountConcat(a: seq<nat>, b: seq<nat>, i: nat)
    ensures Count(a + b, i) == Count(a, i) + Count(b, i)
  {
    if a == [] {
      assert a + b == b;
    } else {
      assert (a + b)[1..] == a[1..] + b;
      CountConcat(a[1..], b, i);
    }
  }

  lemma {:induction false} CountBounded(s: seq<nat>, i: nat)
    ensures Count(s, i) <= |s|
  {
    if s != [] { CountBounded(s[1..], i); }
  }

  lemma {:induction false} RunsCompose(w: seq<int>, p: Position, a: nat, b: nat)
    requires Weights(w) && Stands(w, p)
    ensures After(w, p, a + b) == After(w, After(w, p, a), b)
    ensures Choices(w, p, a + b) == Choices(w, p, a) + Choices(w, After(w, p, a), b)
    decreases a
  {
    if a > 0 {
      RunsCompose(w, Advance(w, p), a - 1, b);
    }
  }

  /** A host whose counter is positive is chosen until the counter is used up. */
  lemma {:induction false} Repeats(w: seq<int>, p: Position, k: nat)
    requires Weights(w) && Stands(w, p) && p.last != -1 && k <= p.counter
    ensures After(w, p, k) == Position(p.last, p.counter - k)
    ensures forall i :: 0 <= i < |w| ==> Count(Choices(w, p, k), i) == if i == p.last then k else 0
    decreases k
  {
    if k > 0 {
      Repeats(w, Advance(w, p), k - 1);
    }
  }

  /** A turn: starting with nothing left to repeat, the next host is chosen up to its weight. */
  lemma TakesTurn(w: seq<int>, p: Position, k: nat)
    requires Weights(w) && Stands(w, p) && (p.last == -1 || p.counter == 0)
    requires 1 <= k <= w[Turn(|w|, p.last)]
    ensures var i := Turn(|w|, p.last);
            && After(w, p, k) == Position(i, w[i] - k)
            && forall j :: 0 <= j < |w| ==> Count(Choices(w, p, k), j) == if j == i then k else 0
  {
    Repeats(w, Advance(w, p), k - 1);
  }

  lemma {:induction false} SumGrows(w: seq<int>, a: nat, b: nat)
    requires Weights(w) && a <= b <= |w|
    ensures Sum(w[..a]) + (b - a) <= Sum(w[..b])
  {
    if a < b {
      assert w[..b][..b - 1] == w[..b - 1];
      SumGrows(w, a, b - 1);
    }
  }

  lemma SumStep(w: seq<int>, i: nat)
    requires i < |w|
    ensures Sum(w[..i + 1]) == Sum(w[..i]) + w[i]
  {
    assert w[..i + 1][..i] == w[..i];
  }

  lemma SumPositive(w: seq<int>, i: nat)
    requires Weights(w) && i <= |w|
    ensures Sum(w[..i]) >= i
  {
    SumGrows(w, 0, i);
  }

  // ---------------------------------------------------------------------------------------------
  // A full circle
  // ---------------------------------------------------------------------------------------------

  /** A position from which the first host is next. */
  predicate IsStart(w: seq<int>, p: Position) {
    Stands(w, p) && (p.last == -1 || (p.last == |w| - 1 && p.counter == 0))
  }

  /** From the start, the first `i` hosts take their turns one after the other. */
  lemma {:induction false} TakeTurns(w: seq<int>, p: Position, i: nat)
    requires Weights(w) && IsStart(w, p) && i <= |w|
    ensures Sum(w[..i]) >= 0
    ensures After(w, p, Sum(w[..i])) == if i == 0 then p else Position(i - 1, 0)
    ensures forall j :: 0 <= j < |w| ==> Count(Choices(w, p, Sum(w[..i])), j) == if j < i then w[j] else 0
  {
    SumPositive(w, i);
    if i > 0 {
      TakeTurns(w, p, i - 1);
      SumStep(w, i - 1);
      var before := Sum(w[..i - 1]);
      var q := After(w, p, before);
      RunsCompose(w, p, before, w[i - 1]);
      TakesTurn(w, q, w[i - 1]);
      forall j | 0 <= j < |w| ensures Count(Choices(w, p, Sum(w[..i])), j) == if j < i then w[j] else 0 {
        CountConcat(Choices(w, p, before), Choices(w, q, w[i - 1]), j);
      }
    }
  }

  /** From a position with nothing more to repeat than its host's weight, everybody's next turns come in a full circle:
      the position lies on the circle, `k` steps after the start. */
  lemma OnTheCircle(w: seq<int>, p: Position) returns (k: nat)
    requires Weights(w) && Stands(w, p) && p.last != -1 && p.counter < w[p.last]
    ensures After(w, Position(-1, 0), k) == p
  {
    var start := Position(-1, 0);
    TakeTurns(w, start, p.last);
    var before := Sum(w[..p.last]);
    k := before + w[p.last] - p.counter;
    RunsCompose(w, start, before, w[p.last] - p.counter);
    TakesTurn(w, After(w, start, before), w[p.last] - p.counter);
  }

  lemma StartsAlike(w: seq<int>, p: Position, q: Position, k: nat)
    requires Weights(w) && Stands(w, p) && Stands(w, q)
    requires Chosen(w, p) == Chosen(w, q) && Advance(w, p) == Advance(w, q)
    ensures Choices(w, p, k) == Choices(w, q, k)
    ensures k > 0 ==> After(w, p, k) == After(w, q, k)
  {
  }

  lemma CircleCloses(w: seq<int>)
    requires Weights(w)
    ensures Sum(w) > 0
    ensures Advance(w, After(w, Position(-1, 0), Sum(w))) == Advance(w, Position(-1, 0))
    ensures Chosen(w, After(w, Position(-1, 0), Sum(w))) == Chosen(w, Position(-1, 0))
    ensures Fair(w, Choices(w, Position(-1, 0), Sum(w)))
  {
    assert w[..|w|] == w;
    SumPositive(w, |w|);
    TakeTurns(w, Position(-1, 0), |w|);
  }

  /** Any window of a full circle's length is fair. */
  lemma WindowIsFair(w: seq<int>, k: nat)
    requires Weights(w)
    ensures Sum(w) > 0 && Fair(w, Choices(w, After(w, Position(-1, 0), k), Sum(w)))
  {
    CircleCloses(w);
    var start, n := Position(-1, 0), Sum(w);
    RunsCompose(w, start, n, k);
    RunsCompose(w, start, k, n);
    StartsAlike(w, After(w, start, n), start, k);
    var window := Choices(w, After(w, start, k), n);
    forall i | 0 <= i < |w| ensures Count(window, i) == w[i] {
      CountConcat(Choices(w, start, k), window, i);
      CountConcat(Choices(w, start, n), Choices(w, start, k), i);
    }
  }

  lemma {:induction false} OnlyHost(w: seq<int>, p: Position, k: nat)
    requires Weights(w) && Stands(w, p) && |w| == 1
    ensures Count(Choices(w, p, k), 0) == k
    decreases k
  {
    if k > 0 { OnlyHost(w, Advance(w, p), k - 1); }
  }

  lemma TooManyRepeats(w: seq<int>, p: Position)
    requires Weights(w) && Stands(w, p) && |w| > 1 && p.last != -1 && p.counter > w[p.last]
    ensures Sum(w) >= 0 && !Fair(w, Choices(w, p, Sum(w)))
  {
    WeightBelowSum(w, p.last);
    CountAtLeast(w, p, w[p.last] + 1, Sum(w));
  }

  lemma CountAtLeast(w: seq<int>, p: Position, k: nat, n: nat)
    requires Weights(w) && Stands(w, p) && p.last != -1 && k <= p.counter && k <= n
    ensures Count(Choices(w, p, n), p.last) >= k
  {
    RunsCompose(w, p, k, n - k);
    Repeats(w, p, k);
    CountConcat(Choices(w, p, k), Choices(w, After(w, p, k), n - k), p.last);
  }

  lemma WeightBelowSum(w: seq<int>, i: nat)
    requires Weights(w) && |w| > 1 && i < |w|
    ensures w[i] < Sum(w)
  {
    assert w[..|w|] == w;
    SumStep(w, i);
    SumGrows(w, 0, i);
    SumGrows(w, i + 1, |w|);
  }

  /** Over a full circle's worth of choices everybody gets exactly their weight if and only if the host chosen last
      does not have to be repeated more often than its weight, or it is the only one. */
  lemma FairExactly(w: seq<int>, p: Position)
    requires Weights(w) && Stands(w, p)
    ensures Sum(w) > 0
    ensures Fair(w, Choices(w, p, Sum(w))) <==> (p.last == -1 || p.counter <= w[p.last] || |w| == 1)
  {
    CircleCloses(w);
    var start, n := Position(-1, 0), Sum(w);
    if |w| == 1 {
      OnlyHost(w, p, n);
      assert w[..1] == w;
      SumStep(w, 0);
    } else if p.last == -1 {
      StartsAlike(w, p, start, n);
    } else if p.counter < w[p.last] {
      var k := OnTheCircle(w, p);
      WindowIsFair(w, k);
    } else if p.counter == w[p.last] {
      // The last host's turn starts anew: as if the one before it had just finished.
      TakeTurns(w, start, p.last);
      var before := Sum(w[..p.last]);
      StartsAlike(w, p, After(w, start, before), n);
      WindowIsFair(w, before);
    } else {
      TooManyRepeats(w, p);
    }
  }

  // ---------------------------------------------------------------------------------------------
  // Windows of any length
  // ---------------------------------------------------------------------------------------------

  function Clamp(x: int, top: int): int {
    if x <= 0 then 0 else if x <= top then x else top
  }

  lemma SumIsPositive(w: seq<int>)
    requires Weights(w)
    ensures Sum(w) >= |w|
  {
    assert w[..|w|] == w;
    SumPositive(w, |w|);
  }

  /** How often `k` choices from the start give host `i`: its weight for every full circle, and what of its turn the
      last, unfinished circle reaches. */
  function Served(w: seq<int>, k: nat, i: nat): int
    requires Weights(w) && i < |w|
    decreases k
  {
    SumIsPositive(w);
    if k < Sum(w) then Clamp(k - Sum(w[..i]), w[i]) else w[i] + Served(w, k - Sum(w), i)
  }

  /** How often `k` choices from anywhere do: first the choices left over from the last turn, then part of the circles. */
  function ServedFrom(w: seq<int>, p: Position, k: nat, i: nat): int
    requires Weights(w) && Stands(w, p) && i < |w|
  {
    SumPositive(w, p.last + 1);
    var left := if p.last == -1 then 0 else if k <= p.counter then k else p.counter;
    (if i == p.last then left else 0)
    + Served(w, Sum(w[..p.last + 1]) + k - left, i) - Served(w, Sum(w[..p.last + 1]), i)
  }

  lemma TurnsInOrder(w: seq<int>, i: nat, j: nat)
    requires Weights(w) && i <= j < |w|
    ensures 0 <= Sum(w[..i]) <= Sum(w[..j]) && (i < j ==> Sum(w[..i]) + w[i] <= Sum(w[..j]))
  {
    SumPositive(w, i);
    SumGrows(w, i, j);
    SumStep(w, i);
    if i < j { SumGrows(w, i + 1, j); }
  }

  /** During the turn of host `b` those before it have been served and those behind it have not. */
  lemma ServedInTurn(w: seq<int>, p: Position, b: nat, k: nat, j: nat)
    requires Weights(w) && IsStart(w, p) && b < |w| && j < |w|
    requires Sum(w[..b]) < k <= Sum(w[..b]) + w[b]
    ensures Count(Choices(w, p, k), j) == Clamp(k - Sum(w[..j]), w[j])
  {
    var before := Sum(w[..b]);
    TakeTurns(w, p, b);
    var q := After(w, p, before);
    RunsCompose(w, p, before, k - before);
    TakesTurn(w, q, k - before);
    CountConcat(Choices(w, p, before), Choices(w, q, k - before), j);
    if j <= b { TurnsInOrder(w, j, b); } else { TurnsInOrder(w, b, j); }
  }

  /** Less than a circle, up to the turn of host `b`. */
  lemma {:induction false} ServedByTurns(w: seq<int>, p: Position, b: nat, k: nat, j: nat)
    requires Weights(w) && IsStart(w, p) && b <= |w| && k <= Sum(w[..b]) && j < |w|
    ensures Count(Choices(w, p, k), j) == Clamp(k - Sum(w[..j]), w[j])
    decreases b
  {
    if k == 0 {
      TurnsInOrder(w, j, j);
    } else if k <= Sum(w[..b - 1]) {
      ServedByTurns(w, p, b - 1, k, j);
    } else {
      SumStep(w, b - 1);
      ServedInTurn(w, p, b - 1, k, j);
    }
  }

  /** So many choices from the start give each host that often. */
  lemma {:induction false} ServedExactly(w: seq<int>, p: Position, k: nat, i: nat)
    requires Weights(w) && IsStart(w, p) && i < |w|
    ensures Count(Choices(w, p, k), i) == Served(w, k, i)
    decreases k
  {
    SumIsPositive(w);
    assert w[..|w|] == w;
    if k < Sum(w) {
      ServedByTurns(w, p, |w|, k, i);
    } else {
      var n := Sum(w);
      TakeTurns(w, p, |w|);
      var q := After(w, p, n);
      RunsCompose(w, p, n, k - n);
      CountConcat(Choices(w, p, n), Choices(w, q, k - n), i);
      ServedExactly(w, q, k - n, i);
    }
  }

  /** Choices after the turn of host `last` are part of the circles. */
  lemma ServedAfterTurn(w: seq<int>, last: nat, k: nat, i: nat)
    requires Weights(w) && last < |w| && i < |w|
    ensures Sum(w[..last + 1]) >= 0
    ensures Count(Choices(w, Position(last, 0), k), i)
         == Served(w, Sum(w[..last + 1]) + k, i) - Served(w, Sum(w[..last + 1]), i)
  {
    var start, before := Position(-1, 0), Sum(w[..last + 1]);
    TakeTurns(w, start, last + 1);
    RunsCompose(w, start, before, k);
    CountConcat(Choices(w, start, before), Choices(w, Position(last, 0), k), i);
    ServedExactly(w, start, before + k, i);
    ServedExactly(w, start, before, i);
  }

  /** So are those from anywhere, after what is left over from the last turn. */
  lemma ServedFromExactly(w: seq<int>, p: Position, k: nat, i: nat)
    requires Weights(w) && Stands(w, p) && i < |w|
    ensures Count(Choices(w, p, k), i) == ServedFrom(w, p, k, i)
  {
    if p.last == -1 {
      ServedExactly(w, p, k, i);
      NothingServed(w, i);
    } else {
      ServedAfterRest(w, p, k, if k <= p.counter then k else p.counter, i);
    }
  }

  lemma NothingServed(w: seq<int>, i: nat)
    requires Weights(w) && i < |w|
    ensures Sum(w[..0]) == 0 && Served(w, 0, i) == 0
  {
    SumIsPositive(w);
    SumPositive(w, i);
  }

  lemma ServedAfterRest(w: seq<int>, p: Position, k: nat, left: nat, i: nat)
    requires Weights(w) && Stands(w, p) && i < |w| && p.last != -1
    requires left == if k <= p.counter then k else p.counter
    ensures Sum(w[..p.last + 1]) >= 0
    ensures Count(Choices(w, p, k), i) == (if i == p.last then left else 0)
              + Served(w, Sum(w[..p.last + 1]) + k - left, i) - Served(w, Sum(w[..p.last + 1]), i)
  {
    SumPositive(w, p.last + 1);
    RunsCompose(w, p, left, k - left);
    Repeats(w, p, left);
    CountConcat(Choices(w, p, left), Choices(w, After(w, p, left), k - left), i);
    if left < k { ServedAfterTurn(w, p.last, k - left, i); }
  }

  /** Within a circle from the start the last host is served only once all others have been. */
  lemma LastIsServedLast(w: seq<int>, p: Position, k: nat)
    requires Weights(w) && Stands(w, p) && p.last == -1 && k <= Sum(w)
    ensures ServedFrom(w, p, k, |w| - 1) == Clamp(k - (Sum(w) - w[|w| - 1]), w[|w| - 1])
  {
    SumIsPositive(w);
    SumPositive(w, |w| - 1);
    NothingServed(w, |w| - 1);
  }

  /** The other hosts weigh something, unless there are none. */
  lemma OthersWeigh(w: seq<int>, last: nat)
    requires Weights(w) && last == |w| - 1
    ensures Sum(w) - w[last] >= last
  {
    SumPositive(w, last);
  }
}
