/** `RemoveFromSlice` (`utils.go`) on slices that share their backing array: removing from one slice shifts what all
    the others see. */
module Slices {
  import opened Sorting

  /** The position of the first element that compares equal, or -1. */
  function IndexIn<T>(s: seq<T>, item: T, same: (T, T) -> bool): (i: int)
    ensures -1 <= i < |s|
    ensures i >= 0 ==> same(s[i], item) && forall j :: 0 <= j < i ==> !same(s[j], item)
    ensures i == -1 ==> forall j :: 0 <= j < |s| ==> !same(s[j], item)
  {
    if s == [] then -1
    else if same(s[0], item) then 0
    else
      var i := IndexIn(s[1..], item, same);
      if i == -1 then -1 else i + 1
  }

  method IndexOf<T>(a: array<T>, n: nat, item: T, same: (T, T) -> bool) returns (i: int)
    requires n <= a.Length
    ensures i == IndexIn(a[..n], item, same)
  {
    i := 0;
    while i < n
      invariant 0 <= i <= n
      invariant forall j :: 0 <= j < i ==> !same(a[j], item)
    {
      if same(a[i], item) {
        FirstIndex(a[..n], item, same, i);
        return;
      }
      i := i + 1;
    }
    return -1;
  }

  lemma FirstIndex<T>(s: seq<T>, item: T, same: (T, T) -> bool, i: nat)
    requires i < |s| && same(s[i], item) && forall j :: 0 <= j < i ==> !same(s[j], item)
    ensures IndexIn(s, item, same) == i
  {
  }

  /** What is left of a slice. */
  function Without<T>(s: seq<T>, i: int): seq<T>
    requires -1 <= i < |s|
  {
    if i == -1 then s else s[..i] + s[i + 1..]
  }

  /** What the backing array holds afterwards, where the slice was: the elements behind the removed one moved up, the
      last one is still there as well. */
  function Shifted<T>(s: seq<T>, i: int): (r: seq<T>)
    requires -1 <= i < |s|
    ensures |r| == |s|
  {
    if i == -1 then s else s[..i] + s[i + 1..] + [s[|s| - 1]]
  }

  /** `append(slice[:index], slice[index+1:]...)`; `n` is the length of the slice, `m` that of the result. */
  method RemoveFromSlice<T>(a: array<T>, n: nat, item: T, same: (T, T) -> bool) returns (m: nat)
    requires n <= a.Length
    modifies a
    ensures m == if IndexIn(old(a[..n]), item, same) == -1 then n else n - 1
    ensures a[..m] == Without(old(a[..n]), IndexIn(old(a[..n]), item, same))
    ensures a[..n] == Shifted(old(a[..n]), IndexIn(old(a[..n]), item, same)) && a[n..] == old(a[n..])
  {
    var index := IndexOf(a, n, item, same);
    if index == -1 { return n; }
    ghost var s := a[..n];
    var k := index;
    while k + 1 < n
      invariant index <= k < n
      invariant forall j :: 0 <= j < index || k <= j < a.Length ==> a[j] == old(a[j])
      invariant forall j :: index <= j < k ==> a[j] == old(a[j + 1])
    {
      a[k] := a[k + 1];
      k := k + 1;
    }
    assert a[..n - 1] == s[..index] + s[index + 1..];
    assert a[..n] == a[..n - 1] + [s[n - 1]] && a[n..] == old(a[n..]);
    return n - 1;
  }

  /** Another slice over the same array loses the removed element, unless it was the last one. */
  lemma RemovedIsLost<T>(s: seq<T>, i: nat)
    requires i < |s| && NoDuplicates(s)
    ensures s[i] in Shifted(s, i) <==> i == |s| - 1
    ensures forall j :: 0 <= j < |s| && j != i ==> s[j] in Shifted(s, i)
  {
    var r := Shifted(s, i);
    assert forall j :: 0 <= j < i ==> r[j] == s[j];
    assert forall j :: i < j < |s| ==> r[j - 1] == s[j];
    assert r[|s| - 1] == s[|s| - 1];
  }

  // ---------------------------------------------------------------------------------------------
  // Many removals from slices over one array
  // ---------------------------------------------------------------------------------------------

  /** The element at `index` was removed from the slice of the first `length` elements; -1 when there was none. */
  datatype Removal = Removal(length: nat, index: int)

  predicate Fits(r: Removal, size: nat) {
    -1 <= r.index < r.length <= size
  }

  predicate Fit(rs: seq<Removal>, size: nat) {
    forall k :: 0 <= k < |rs| ==> Fits(rs[k], size)
  }

  /** What the whole array holds after one removal, and after many. */
  function AfterRemoval<T>(s: seq<T>, r: Removal): (t: seq<T>)
    requires Fits(r, |s|)
    ensures |t| == |s|
  {
    Shifted(s[..r.length], r.index) + s[r.length..]
  }

  function AfterRemovals<T>(s: seq<T>, rs: seq<Removal>): (t: seq<T>)
    requires Fit(rs, |s|)
    ensures |t| == |s|
  {
    if rs == [] then s else AfterRemoval(AfterRemovals(s, rs[..|rs| - 1]), rs[|rs| - 1])
  }

  lemma RemovedOnce<T>(s: seq<T>, r: Removal)
    requires Fits(r, |s|)
    ensures Fit([r], |s|) && AfterRemovals(s, [r]) == AfterRemoval(s, r)
  {
    assert [r][..0] == [];
  }

  lemma RemovedTwice<T>(s: seq<T>, r: Removal, q: Removal)
    requires Fits(r, |s|) && Fits(q, |s|)
    ensures Fit([r, q], |s|) && AfterRemovals(s, [r, q]) == AfterRemoval(AfterRemoval(s, r), q)
  {
    assert [r, q][..1] == [r];
    RemovedOnce(s, r);
  }

  lemma {:induction false} RemovalsCompose<T>(s: seq<T>, a: seq<Removal>, b: seq<Removal>)
    requires Fit(a, |s|) && Fit(b, |s|)
    ensures Fit(a + b, |s|) && AfterRemovals(s, a + b) == AfterRemovals(AfterRemovals(s, a), b)
  {
    if b == [] {
      assert a + b == a;
    } else {
      RemovalsCompose(s, a, b[..|b| - 1]);
      assert (a + b)[..|a + b| - 1] == a + b[..|b| - 1];
    }
  }

  /** Nothing there is new. */
  lemma RemovalKeeps<T>(s: seq<T>, r: Removal, x: T)
    requires Fits(r, |s|) && x in AfterRemoval(s, r)
    ensures x in s
  {
    var slice, t := s[..r.length], AfterRemoval(s, r);
    var k :| 0 <= k < |t| && t[k] == x;
    if k >= r.length {
      assert t[k] == s[k];
    } else {
      assert t[k] == Shifted(slice, r.index)[k];
      assert t[k] == s[if r.index == -1 || k < r.index || k == r.length - 1 then k else k + 1];
    }
  }

  lemma {:induction false} RemovalsKeep<T>(s: seq<T>, rs: seq<Removal>, x: T)
    requires Fit(rs, |s|) && x in AfterRemovals(s, rs)
    ensures x in s
  {
    if rs != [] {
      RemovalKeeps(AfterRemovals(s, rs[..|rs| - 1]), rs[|rs| - 1], x);
      RemovalsKeep(s, rs[..|rs| - 1], x);
    }
  }

  /** Nothing was removed, or the last element of the slice was. */
  predicate FromEnd(r: Removal) {
    r.index == -1 || r.index == r.length - 1
  }

  lemma {:induction false} EndsLeaveAll<T>(s: seq<T>, rs: seq<Removal>)
    requires Fit(rs, |s|) && forall k :: 0 <= k < |rs| ==> FromEnd(rs[k])
    ensures AfterRemovals(s, rs) == s
  {
    if rs != [] {
      EndsLeaveAll(s, rs[..|rs| - 1]);
      var r := rs[|rs| - 1];
      assert FromEnd(r);
      assert AfterRemoval(s, r) == s;
    }
  }

  lemma OneLoses<T>(s: seq<T>, r: Removal)
    requires NoDuplicates(s) && Fits(r, |s|) && !FromEnd(r)
    ensures s[r.index] !in AfterRemoval(s, r)
  {
    var slice := s[..r.length];
    assert slice[r.index] == s[r.index] && NoDuplicates(slice);
    RemovedIsLost(slice, r.index);
    assert s[r.index] !in s[r.length..];
  }

  lemma StaysLost<T>(s: seq<T>, r: Removal, x: T)
    requires Fits(r, |s|) && x !in s
    ensures x !in AfterRemoval(s, r)
  {
    if x in AfterRemoval(s, r) { RemovalKeeps(s, r, x); }
  }

  /** The first removal from elsewhere loses an element, and no later one brings it back. */
  lemma {:induction false} OtherLoses<T>(s: seq<T>, rs: seq<Removal>, k: nat)
    requires NoDuplicates(s) && Fit(rs, |s|) && k < |rs|
    requires !FromEnd(rs[k]) && forall j :: 0 <= j < k ==> FromEnd(rs[j])
    ensures Fits(rs[k], |s|) && s[rs[k].index] !in AfterRemovals(s, rs)
  {
    var n := |rs| - 1;
    var before, r := rs[..n], rs[n];
    if k == n {
      assert forall j :: 0 <= j < |before| ==> before[j] == rs[j];
      EndsLeaveAll(s, before);
      OneLoses(s, r);
    } else {
      OtherLoses(s, before, k);
      StaysLost(AfterRemovals(s, before), r, s[rs[k].index]);
    }
  }

  function FirstOther(rs: seq<Removal>): (k: nat)
    requires exists j :: 0 <= j < |rs| && !FromEnd(rs[j])
    ensures k < |rs| && !FromEnd(rs[k]) && forall j :: 0 <= j < k ==> FromEnd(rs[j])
  {
    if !FromEnd(rs[0]) then 0
    else
      assert exists j :: 0 <= j < |rs[1..]| && !FromEnd(rs[1..][j]) by {
        var j :| 0 <= j < |rs| && !FromEnd(rs[j]);
        assert rs[1..][j - 1] == rs[j];
      }
      1 + FirstOther(rs[1..])
  }

  /** Whatever is removed in whatever order from slices over the same array: every element is still somewhere in the
      array if and only if each removal took the last element of its slice, or found none. */
  lemma RemovalsLoseExactly<T>(s: seq<T>, rs: seq<Removal>)
    requires NoDuplicates(s) && Fit(rs, |s|)
    ensures (forall x :: x in s ==> x in AfterRemovals(s, rs)) <==> forall k :: 0 <= k < |rs| ==> FromEnd(rs[k])
  {
    if forall k :: 0 <= k < |rs| ==> FromEnd(rs[k]) {
      EndsLeaveAll(s, rs);
    } else {
      OtherLoses(s, rs, FirstOther(rs));
    }
  }

  /** A round that tries three candidates from the first to the last: each is found at the front of what remains, and in
      the end the array holds only the last one, three times. */
  lemma FirstToLastLoses<T>(a: T, b: T, c: T, same: (T, T) -> bool)
    requires same(a, a) && same(b, b) && same(c, c)
    ensures IndexIn([a, b, c], a, same) == IndexIn([b, c, c][..2], b, same) == IndexIn([c, c, c][..1], c, same) == 0
    ensures AfterRemovals([a, b, c], [Removal(3, 0), Removal(2, 0), Removal(1, 0)]) == [c, c, c]
  {
    var s, one, two, three := [a, b, c], Removal(3, 0), Removal(2, 0), Removal(1, 0);
    assert [one, two, three][..2] == [one, two];
    RemovedTwice(s, one, two);
    assert AfterRemoval(s, one) == [b, c, c];
    assert AfterRemoval([b, c, c], two) == [c, c, c];
    assert AfterRemoval([c, c, c], three) == [c, c, c];
    FirstIndex([a, b, c], a, same, 0);
    FirstIndex([b, c, c][..2], b, same, 0);
    FirstIndex([c, c, c][..1], c, same, 0);
  }

  /** A slice with an array of its own. */
  method NewSlice<T(0)>(s: seq<T>) returns (a: array<T>)
    ensures fresh(a) && a[..] == s
  {
    a := new T[|s|];
    for i := 0 to |s|
      invariant a[..i] == s[..i]
    {
      a[i] := s[i];
    }
    assert a[..] == a[..|s|] && s[..|s|] == s;
  }
}
