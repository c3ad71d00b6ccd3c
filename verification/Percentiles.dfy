/** calculatePercentiles (pkg/warmup/warmup_executor.go): nearest-rank P50 and P99 over an
    in-place sort, in integer arithmetic. */
module Percentiles {

  // ---------------------------------------------------------------- order statistics

  function Count(s: seq<int>, f: int -> bool): nat {
    if s == [] then 0 else (if f(s[0]) then 1 else 0) + Count(s[1..], f)
  }

  function AtMost(v: int): int -> bool { x => x <= v }

  function Below(v: int): int -> bool { x => x < v }

  /** v is the element of rank r (1-based): at least r elements are at most v, and fewer than r
      are strictly below it. */
  ghost predicate HasRank(s: seq<int>, r: int, v: int) {
    v in s && Count(s, AtMost(v)) >= r && Count(s, Below(v)) < r
  }

  lemma {:induction false} CountSplit(a: seq<int>, b: seq<int>, f: int -> bool)
    ensures Count(a + b, f) == Count(a, f) + Count(b, f)
    decreases |a|
  {
    if a == [] {
      assert a + b == b;
    } else {
      assert (a + b)[1..] == a[1..] + b;
      CountSplit(a[1..], b, f);
    }
  }

  lemma {:induction false} CountMost(s: seq<int>, f: int -> bool)
    ensures Count(s, f) <= |s|
  {
    if s != [] { CountMost(s[1..], f); }
  }

  lemma {:induction false} CountAll(s: seq<int>, f: int -> bool)
    requires forall i :: 0 <= i < |s| ==> f(s[i])
    ensures Count(s, f) == |s|
  {
    if s != [] { CountAll(s[1..], f); }
  }

  lemma {:induction false} CountNone(s: seq<int>, f: int -> bool)
    requires forall i :: 0 <= i < |s| ==> !f(s[i])
    ensures Count(s, f) == 0
  {
    if s != [] { CountNone(s[1..], f); }
  }

  lemma {:induction false} CountWeaker(s: seq<int>, f: int -> bool, g: int -> bool)
    requires forall x :: f(x) ==> g(x)
    ensures Count(s, f) <= Count(s, g)
  {
    if s != [] { CountWeaker(s[1..], f, g); }
  }

  lemma CountRemoved(t: seq<int>, k: nat, f: int -> bool)
    requires k < |t|
    ensures Count(t, f) == Count(t[..k] + t[k + 1..], f) + (if f(t[k]) then 1 else 0)
  {
    var tail := [t[k]] + t[k + 1..];
    assert t == t[..k] + tail && tail[1..] == t[k + 1..];
    CountSplit(t[..k], tail, f);
    CountSplit(t[..k], t[k + 1..], f);
  }

  lemma MultisetRemoved(t: seq<int>, k: nat)
    requires k < |t|
    ensures multiset(t[..k] + t[k + 1..]) == multiset(t) - multiset{t[k]}
  {
    assert t == t[..k] + ([t[k]] + t[k + 1..]);
  }

  /** Taking the first element of s out of t. */
  lemma TakeOut(s: seq<int>, t: seq<int>, f: int -> bool) returns (rest: seq<int>)
    requires multiset(s) == multiset(t) && s != []
    ensures multiset(s[1..]) == multiset(rest)
    ensures Count(t, f) == Count(rest, f) + (if f(s[0]) then 1 else 0)
  {
    assert s[0] in multiset(t);
    var k :| 0 <= k < |t| && t[k] == s[0];
    rest := t[..k] + t[k + 1..];
    assert s == [s[0]] + s[1..];
    MultisetRemoved(t, k);
    CountRemoved(t, k, f);
  }

  /** Counting does not see the order. */
  lemma {:induction false} CountPermuted(s: seq<int>, t: seq<int>, f: int -> bool)
    requires multiset(s) == multiset(t)
    ensures Count(s, f) == Count(t, f)
    decreases |s|
  {
    if s == [] {
      assert |multiset(t)| == |t|;
    } else {
      var rest := TakeOut(s, t, f);
      CountPermuted(s[1..], rest, f);
    }
  }

  /** The rank fixes the element, and larger ranks have larger elements. */
  lemma RankMonotone(s: seq<int>, r: int, q: int, v: int, w: int)
    requires HasRank(s, r, v) && HasRank(s, q, w) && r <= q
    ensures v <= w
  {
    if w < v { CountWeaker(s, AtMost(w), Below(v)); }
  }

  lemma RankPermuted(s: seq<int>, t: seq<int>, r: int, v: int)
    requires multiset(s) == multiset(t) && HasRank(s, r, v)
    ensures HasRank(t, r, v)
  {
    CountPermuted(s, t, AtMost(v));
    CountPermuted(s, t, Below(v));
    assert v in multiset(s);
  }

  ghost predicate Sorted(s: seq<int>) {
    forall i, j :: 0 <= i < j < |s| ==> s[i] <= s[j]
  }

  /** In a sorted list the element of rank r stands at index r - 1. */
  lemma SortedRank(s: seq<int>, r: int)
    requires Sorted(s) && 1 <= r <= |s|
    ensures HasRank(s, r, s[r - 1])
  {
    AtMostRank(s, r);
    BelowRank(s, r);
  }

  lemma AtMostRank(s: seq<int>, r: int)
    requires Sorted(s) && 1 <= r <= |s|
    ensures Count(s, AtMost(s[r - 1])) >= r
  {
    var f := AtMost(s[r - 1]);
    assert s == s[..r] + s[r..];
    CountSplit(s[..r], s[r..], f);
    CountAll(s[..r], f);
  }

  lemma BelowRank(s: seq<int>, r: int)
    requires Sorted(s) && 1 <= r <= |s|
    ensures Count(s, Below(s[r - 1])) < r
  {
    var f := Below(s[r - 1]);
    assert s == s[..r - 1] + s[r - 1..];
    CountSplit(s[..r - 1], s[r - 1..], f);
    CountMost(s[..r - 1], f);
    CountNone(s[r - 1..], f);
  }

  // ---------------------------------------------------------------- slices.Sort

  method Swap(a: array<int>, i: nat, j: nat)
    requires i < a.Length && j < a.Length
    modifies a
    ensures a[..] == old(a[..])[i := old(a[j])][j := old(a[i])]
    ensures multiset(a[..]) == old(multiset(a[..]))
  {
    a[i], a[j] := a[j], a[i];
  }

  method MinIndex(a: array<int>, from: nat) returns (m: nat)
    requires from < a.Length
    ensures from <= m < a.Length && forall k :: from <= k < a.Length ==> a[m] <= a[k]
  {
    m := from;
    for k := from to a.Length
      invariant from <= m < a.Length && forall j :: from <= j < k ==> a[m] <= a[j]
    {
      if a[k] < a[m] {
        m := k;
      }
    }
  }

  method Sort(a: array<int>)
    modifies a
    ensures Sorted(a[..]) && multiset(a[..]) == old(multiset(a[..]))
  {
    for i := 0 to a.Length
      invariant multiset(a[..]) == old(multiset(a[..]))
      invariant forall j, k :: 0 <= j < i && j < k < a.Length ==> a[j] <= a[k]
    {
      var m := MinIndex(a, i);
      Swap(a, i, m);
    }
  }

  // ---------------------------------------------------------------- the code

  /** ceil(n * p / 100). */
  function Rank(n: nat, p: nat): (r: nat)
    ensures 100 * r >= n * p && (r > 0 ==> 100 * (r - 1) < n * p)
  {
    (n * p + 99) / 100
  }

  /** The nearest-rank percentiles of the list as it was passed in.  The index computed for P99
      is below n, so its upper clamp never changes it. */
  method CalculatePercentiles(latencies: array<int>) returns (p50: int, p99: int)
    modifies latencies
    ensures multiset(latencies[..]) == old(multiset(latencies[..]))
    ensures latencies.Length == 0 ==> p50 == 0 && p99 == 0
    ensures latencies.Length > 0 ==>
              && HasRank(old(latencies[..]), Rank(latencies.Length, 50), p50)
              && HasRank(old(latencies[..]), Rank(latencies.Length, 99), p99)
              && p50 <= p99
  {
    var n := latencies.Length;
    if n == 0 {
      return 0, 0;
    }
    ghost var before := latencies[..];
    Sort(latencies);
    ghost var sorted := latencies[..];
    assert multiset(before) == multiset(sorted);

    var p50idx := (n * 50 + 99) / 100;
    if p50idx > 0 {
      p50idx := p50idx - 1;
    }
    p50 := latencies[p50idx];
    SortedRank(sorted, p50idx + 1);
    RankPermuted(sorted, before, p50idx + 1, p50);

    var p99idx := (n * 99 + 99) / 100;
    if p99idx > 0 {
      p99idx := p99idx - 1;
    }
    if p99idx >= n {
      p99idx := n - 1;
    }
    p99 := latencies[p99idx];
    SortedRank(sorted, p99idx + 1);
    RankPermuted(sorted, before, p99idx + 1, p99);
    RankMonotone(before, Rank(n, 50), Rank(n, 99), p50, p99);
  }

  /** The clamp `if p99idx >= n` is dead code for every length. */
  lemma ClampNeverFires(n: nat)
    requires n > 0
    ensures 0 < Rank(n, 50) <= Rank(n, 99) <= n
  {
  }

  /** The answer depends on the multiset of latencies only. */
  lemma PercentilesIgnoreOrder(s: seq<int>, t: seq<int>, r: int, v: int, w: int)
    requires multiset(s) == multiset(t) && HasRank(s, r, v) && HasRank(t, r, w)
    ensures v == w
  {
    RankPermuted(s, t, r, v);
    RankMonotone(t, r, r, v, w);
    RankMonotone(t, r, r, w, v);
  }
}
