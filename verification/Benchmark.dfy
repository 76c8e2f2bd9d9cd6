/** The load generator's arithmetic: how requests are split over workers, and the latency percentiles. */
module Benchmark {
  // ----- splitting the requests -----

  /** `q` requests for every one of `c` workers, and one more for each of the first `r`. */
  function Share(q: nat, r: nat, i: nat): nat {
    q + if i < r then 1 else 0
  }

  function Quotient(total: nat, c: nat): nat
    requires c > 0
  {
    total / c
  }

  function Remainder(total: nat, c: nat): (r: nat)
    requires c > 0
    ensures r < c && c * Quotient(total, c) + r == total
  {
    total % c
  }

  function FirstOf(q: nat, r: nat, i: nat): nat {
    i * q + if i < r then i else r
  }

  /** The slot of the latency array that worker `i` writes for its `k`-th request. */
  function Slot(q: nat, r: nat, i: nat, k: nat): nat {
    i * Share(q, r, i) + k
  }

  lemma Monotone(a: nat, b: nat, q: nat)
    requires a <= b
    ensures a * q <= b * q
  {
    assert b * q == a * q + (b - a) * q;
  }

  lemma SmallerFactor(a: nat, b: nat, q: nat)
    requires a * q < b * q
    ensures a < b
  {
    if b <= a {
      Monotone(b, a, q);
    }
  }

  lemma NextFirst(q: nat, r: nat, i: nat)
    ensures FirstOf(q, r, i + 1) == FirstOf(q, r, i) + Share(q, r, i)
  {
    assert (i + 1) * q == i * q + q;
  }

  /** The registration ranges: consecutive, of nearly equal sizes, from 0 up to `total`. */
  method RegisterRanges(total: nat, c: nat) returns (bases: seq<nat>, sizes: seq<nat>)
    requires c > 0
    ensures |bases| == |sizes| == c
    ensures bases[0] == 0 && bases[c - 1] + sizes[c - 1] == total
    ensures forall i :: 0 <= i < c - 1 ==> bases[i] + sizes[i] == bases[i + 1]
    ensures forall i :: 0 <= i < c ==> sizes[i] == total / c + if i < total % c then 1 else 0
  {
    var reqPerWorker := total / c;
    var remainder := total % c;
    assert reqPerWorker == Quotient(total, c) && remainder == Remainder(total, c);
    assert FirstOf(reqPerWorker, remainder, c) == total;
    var base := 0;
    bases, sizes := [], [];
    for i := 0 to c
      invariant |bases| == |sizes| == i
      invariant base == FirstOf(reqPerWorker, remainder, i)
      invariant forall j :: 0 <= j < i ==> bases[j] == FirstOf(reqPerWorker, remainder, j)
      invariant forall j :: 0 <= j < i ==> sizes[j] == Share(reqPerWorker, remainder, j)
    {
      var n := reqPerWorker;
      if i < remainder {
        n := n + 1;
      }
      bases, sizes := bases + [base], sizes + [n];
      NextFirst(reqPerWorker, remainder, i);
      base := base + n;
    }
    forall i | 0 <= i < c
      ensures bases[i] + sizes[i] == FirstOf(reqPerWorker, remainder, i + 1)
    {
      NextFirst(reqPerWorker, remainder, i);
    }
  }

  /** Every worker's requests have a slot inside the array of `c * q + r` slots. */
  lemma SlotInside(c: nat, q: nat, r: nat, i: nat, k: nat)
    requires r < c && i < c && k < Share(q, r, i)
    ensures Slot(q, r, i, k) < c * q + r
  {
    if i < r {
      Monotone(i + 1, r, q + 1);
      Monotone(r, c, q);
      assert i * (q + 1) + (q + 1) == (i + 1) * (q + 1);
      assert r * (q + 1) == r * q + r;
    } else {
      Monotone(i + 1, c, q);
      assert i * q + q == (i + 1) * q;
    }
  }

  ghost predicate SlotsDisjoint(c: nat, q: nat, r: nat) {
    forall i: nat, j: nat, k: nat, l: nat ::
      i < j < c && k < Share(q, r, i) && l < Share(q, r, j) ==> Slot(q, r, i, k) != Slot(q, r, j, l)
  }

  lemma EvenSlotsApart(c: nat, q: nat, r: nat, i: nat, j: nat, k: nat, l: nat)
    requires r < c && i < j < c && k < Share(q, r, i) && l < Share(q, r, j)
    requires q == 0 || r == 0
    ensures Slot(q, r, i, k) < Slot(q, r, j, l)
  {
    var n := Share(q, r, j);
    assert Share(q, r, i) == n;
    Monotone(i + 1, j, n);
    assert i * n + n == (i + 1) * n;
  }

  /** The first slot of the first small worker is also a slot of a worker with one request more. */
  lemma Overlap(q: nat, r: nat) returns (i: nat, k: nat)
    requires q > 0 && r > 0
    ensures i < r && k < Share(q, r, i) && Slot(q, r, i, k) == Slot(q, r, r, 0)
  {
    i, k := (r * q) / (q + 1), (r * q) % (q + 1);
    assert i * (q + 1) + k == r * q;
    assert r * (q + 1) == r * q + r;
    SmallerFactor(i, r, q + 1);
  }

  /** No two workers write to one slot exactly when the split is even, or leaves at most one request each. */
  lemma SlotsDisjointIffEven(total: nat, c: nat)
    requires c > 0
    ensures SlotsDisjoint(c, Quotient(total, c), Remainder(total, c)) <==>
            Remainder(total, c) == 0 || Quotient(total, c) == 0
  {
    var q, r := Quotient(total, c), Remainder(total, c);
    if r == 0 || q == 0 {
      forall i: nat, j: nat, k: nat, l: nat | i < j < c && k < Share(q, r, i) && l < Share(q, r, j)
        ensures Slot(q, r, i, k) != Slot(q, r, j, l)
      {
        EvenSlotsApart(c, q, r, i, j, k, l);
      }
    } else {
      var i, k := Overlap(q, r);
      assert i < r < c && 0 < Share(q, r, r);
    }
  }

  // ----- percentiles -----

  predicate Sorted(s: seq<int>) {
    forall i, j :: 0 <= i < j < |s| ==> s[i] <= s[j]
  }

  /** The samples that count: latencies that were recorded. */
  function Recorded(s: seq<int>): seq<int> {
    if s == [] then [] else Recorded(s[..|s| - 1]) + if s[|s| - 1] > 0 then [s[|s| - 1]] else []
  }

  function AtMost(s: seq<int>, v: int): nat {
    if s == [] then 0 else AtMost(s[1..], v) + if s[0] <= v then 1 else 0
  }

  function Below(s: seq<int>, v: int): nat {
    if s == [] then 0 else Below(s[1..], v) + if s[0] < v then 1 else 0
  }

  lemma {:induction false} CountsOfConcat(s: seq<int>, t: seq<int>, v: int)
    ensures AtMost(s + t, v) == AtMost(s, v) + AtMost(t, v)
    ensures Below(s + t, v) == Below(s, v) + Below(t, v)
  {
    if s == [] {
      assert s + t == t;
    } else {
      CountsOfConcat(s[1..], t, v);
      assert (s + t)[1..] == s[1..] + t;
    }
  }

  lemma CountsWithout(t: seq<int>, i: nat, v: int)
    requires i < |t|
    ensures var rest := t[..i] + t[i + 1..];
            && multiset(t) == multiset(rest) + multiset{t[i]}
            && AtMost(t, v) == AtMost(rest, v) + (if t[i] <= v then 1 else 0)
            && Below(t, v) == Below(rest, v) + (if t[i] < v then 1 else 0)
  {
    assert t == t[..i] + ([t[i]] + t[i + 1..]);
    CountsOfConcat(t[..i], t[i + 1..], v);
    CountsOfConcat(t[..i], [t[i]] + t[i + 1..], v);
  }

  lemma Cancel(a: multiset<int>, b: multiset<int>, x: int)
    requires a + multiset{x} == b + multiset{x}
    ensures a == b
  {
    assert a == (a + multiset{x}) - multiset{x};
    assert b == (b + multiset{x}) - multiset{x};
  }

  /** The counts depend on the samples, not on their order. */
  lemma {:induction false} CountsOfPermutation(s: seq<int>, t: seq<int>, v: int)
    requires multiset(s) == multiset(t)
    ensures AtMost(s, v) == AtMost(t, v) && Below(s, v) == Below(t, v)
    decreases |s|
  {
    if s == [] {
      assert |multiset(t)| == 0 && t == [];
    } else {
      assert s[0] in multiset(t);
      var i :| 0 <= i < |t| && t[i] == s[0];
      CountsWithout(t, i, v);
      assert s == [s[0]] + s[1..];
      Cancel(multiset(s[1..]), multiset(t[..i] + t[i + 1..]), s[0]);
      CountsOfPermutation(s[1..], t[..i] + t[i + 1..], v);
    }
  }

  lemma {:induction false} AllAtMost(s: seq<int>, v: int)
    requires forall k :: 0 <= k < |s| ==> s[k] <= v
    ensures AtMost(s, v) == |s|
  {
    if s != [] {
      AllAtMost(s[1..], v);
    }
  }

  lemma {:induction false} NoneBelow(s: seq<int>, v: int)
    requires forall k :: 0 <= k < |s| ==> s[k] >= v
    ensures Below(s, v) == 0
  {
    if s != [] {
      NoneBelow(s[1..], v);
    }
  }

  lemma {:induction false} BelowAtMostLength(s: seq<int>, v: int)
    ensures Below(s, v) <= |s|
  {
    if s != [] {
      BelowAtMostLength(s[1..], v);
    }
  }

  /** In a sorted sequence, at most `i` samples are below the one at index `i`, and more than `i` are at most it. */
  lemma SortedRank(s: seq<int>, i: nat)
    requires Sorted(s) && i < |s|
    ensures Below(s, s[i]) <= i < AtMost(s, s[i])
  {
    assert s == s[..i] + s[i..] && s == s[..i + 1] + s[i + 1..];
    CountsOfConcat(s[..i], s[i..], s[i]);
    CountsOfConcat(s[..i + 1], s[i + 1..], s[i]);
    NoneBelow(s[i..], s[i]);
    AllAtMost(s[..i + 1], s[i]);
    BelowAtMostLength(s[..i], s[i]);
  }

  lemma {:induction false} RecordedIsFiltered(s: seq<int>)
    ensures forall x :: multiset(Recorded(s))[x] == if x > 0 then multiset(s)[x] else 0
  {
    if s != [] {
      RecordedIsFiltered(s[..|s| - 1]);
      assert s == s[..|s| - 1] + [s[|s| - 1]];
    }
  }

  /** `r` is `s` with the element at `i` moved down to `n`. */
  predicate MovedDown(s: seq<int>, r: seq<int>, n: nat, i: nat)
    requires n <= i < |s| == |r|
  {
    && (forall k :: 0 <= k < n ==> r[k] == s[k])
    && r[n] == s[i]
    && (forall k :: n < k <= i ==> r[k] == s[k - 1])
    && (forall k :: i < k < |s| ==> r[k] == s[k])
  }

  lemma MovedSorted(s: seq<int>, r: seq<int>, n: nat, i: nat)
    requires n <= i < |s| == |r| && MovedDown(s, r, n, i) && Sorted(s[..i])
    requires forall k :: n <= k < i ==> s[k] > s[i]
    requires n > 0 ==> s[n - 1] <= s[i]
    ensures Sorted(r[..i + 1])
  {
    assert forall k, l :: 0 <= k < l < i ==> s[..i][k] <= s[..i][l];
    assert forall k, l :: 0 <= k < l < i ==> s[k] <= s[l];
    forall k, l | 0 <= k < l < i + 1
      ensures r[k] <= r[l]
    {
    }
  }

  lemma {:induction false} MovedPermutation(s: seq<int>, r: seq<int>, n: nat, i: nat)
    requires n <= i < |s| == |r| && MovedDown(s, r, n, i)
    ensures multiset(r) == multiset(s)
    decreases i - n
  {
    if n == i {
      assert r == s;
    } else {
      var t := r[n := r[n + 1]][n + 1 := r[n]];
      MovedPermutation(s, t, n + 1, i);
    }
  }

  lemma Moved(s: seq<int>, r: seq<int>, n: nat, i: nat)
    requires n <= i < |s| == |r| && MovedDown(s, r, n, i) && Sorted(s[..i])
    requires forall k :: n <= k < i ==> s[k] > s[i]
    requires n > 0 ==> s[n - 1] <= s[i]
    ensures Sorted(r[..i + 1]) && multiset(r) == multiset(s)
  {
    MovedSorted(s, r, n, i);
    MovedPermutation(s, r, n, i);
  }

  /** The inner loop: the element at `i` moves down to its place in the sorted prefix. */
  method SiftDown(sorted: array<int>, i: nat)
    requires 0 < i < sorted.Length && Sorted(sorted[..][..i])
    modifies sorted
    ensures Sorted(sorted[..][..i + 1])
    ensures multiset(sorted[..]) == multiset(old(sorted[..]))
  {
    ghost var s := sorted[..];
    var key := sorted[i];
    var j := i - 1;
    while j >= 0 && sorted[j] > key
      invariant -1 <= j < i
      invariant forall k :: 0 <= k <= j ==> sorted[k] == s[k]
      invariant forall k :: j + 2 <= k <= i ==> sorted[k] == s[k - 1]
      invariant forall k :: i < k < sorted.Length ==> sorted[k] == s[k]
      invariant forall k :: j < k < i ==> s[k] > key
    {
      sorted[j + 1] := sorted[j];
      j := j - 1;
    }
    sorted[j + 1] := key;
    Moved(s, sorted[..], j + 1, i);
  }

  method InsertionSort(sorted: array<int>)
    modifies sorted
    ensures Sorted(sorted[..])
    ensures multiset(sorted[..]) == multiset(old(sorted[..]))
  {
    var i := 1;
    while i < sorted.Length
      invariant 1 <= i && (i <= sorted.Length || sorted.Length == 0)
      invariant sorted.Length > 0 ==> Sorted(sorted[..][..i])
      invariant multiset(sorted[..]) == multiset(old(sorted[..]))
    {
      SiftDown(sorted, i);
      i := i + 1;
    }
    if sorted.Length > 0 {
      assert sorted[..][..i] == sorted[..];
    }
  }

  function Rank(len: nat, n: nat): nat {
    len * n / 100
  }

  lemma RankInside(len: nat, n: nat)
    requires len > 0 && n < 100
    ensures Rank(len, n) < len
  {
    Monotone(n + 1, 100, len);
    assert len * n == n * len && (n + 1) * len == n * len + len;
  }

  lemma RankMonotone(len: nat, m: nat, n: nat)
    requires m <= n
    ensures Rank(len, m) <= Rank(len, n)
  {
    Monotone(m, n, len);
    assert len * m == m * len && len * n == n * len;
  }

  datatype Stats = NoSamples | Stats(average: int, p50: int, p90: int, p95: int, p99: int)

  /** `v` is the sample with `n` percent of the samples before it: at most that many are below it, and more are at most it. */
  predicate Percentile(samples: seq<int>, n: nat, v: int) {
    v in samples && 100 * Below(samples, v) <= n * |samples| < 100 * AtMost(samples, v)
  }

  function SmallerAt(s: seq<int>, v: int): set<int> {
    set i | 0 <= i < |s| && s[i] < v
  }

  function NotGreaterAt(s: seq<int>, v: int): set<int> {
    set i | 0 <= i < |s| && s[i] <= v
  }

  lemma IndicesAppend(t: seq<int>, x: int, v: int)
    ensures SmallerAt(t + [x], v) == SmallerAt(t, v) + if x < v then {|t|} else {}
    ensures NotGreaterAt(t + [x], v) == NotGreaterAt(t, v) + if x <= v then {|t|} else {}
  {
  }

  /** The counts are those of the indices with a smaller sample, or with one that is not greater. */
  lemma {:induction false} CountsAreSizes(s: seq<int>, v: int)
    ensures Below(s, v) == |SmallerAt(s, v)| && AtMost(s, v) == |NotGreaterAt(s, v)|
  {
    if s == [] {
      assert SmallerAt(s, v) == {} && NotGreaterAt(s, v) == {};
    } else {
      var t, x := s[..|s| - 1], s[|s| - 1];
      assert s == t + [x];
      CountsAreSizes(t, v);
      CountsOfConcat(t, [x], v);
      IndicesAppend(t, x, v);
    }
  }

  lemma RankBounds(len: nat, n: nat, below: nat, atMost: nat)
    requires below <= Rank(len, n) < atMost
    ensures 100 * below <= n * len < 100 * atMost
  {
    assert len * n == n * len;
  }

  /** A percentile is unique: the rank condition admits one value. */
  lemma PercentileUnique(samples: seq<int>, n: nat, v: int, w: int)
    requires Percentile(samples, n, v) && Percentile(samples, n, w)
    ensures v == w
  {
    if v < w {
      AtMostBelow(samples, v, w);
    } else if w < v {
      AtMostBelow(samples, w, v);
    }
  }

  lemma {:induction false} AtMostBelow(s: seq<int>, v: int, w: int)
    requires v < w
    ensures AtMost(s, v) <= Below(s, w)
  {
    if s != [] {
      AtMostBelow(s[1..], v, w);
    }
  }

  lemma SortedPercentile(samples: seq<int>, sorted: seq<int>, n: nat)
    requires Sorted(sorted) && multiset(sorted) == multiset(samples) && |sorted| > 0 && n < 100
    ensures Rank(|sorted|, n) < |sorted|
    ensures Percentile(samples, n, sorted[Rank(|sorted|, n)])
  {
    RankInside(|sorted|, n);
    var v := sorted[Rank(|sorted|, n)];
    SortedRank(sorted, Rank(|sorted|, n));
    CountsOfPermutation(sorted, samples, v);
    RankBounds(|sorted|, n, Below(samples, v), AtMost(samples, v));
    assert |sorted| == |multiset(sorted)| == |samples|;
    assert v in multiset(samples);
  }

  lemma PercentilesOrdered(sorted: seq<int>, m: nat, n: nat)
    requires Sorted(sorted) && |sorted| > 0 && m <= n < 100
    ensures Rank(|sorted|, m) < |sorted| && Rank(|sorted|, n) < |sorted|
    ensures sorted[Rank(|sorted|, m)] <= sorted[Rank(|sorted|, n)]
  {
    RankInside(|sorted|, m);
    RankInside(|sorted|, n);
    RankMonotone(|sorted|, m, n);
  }

  /** The sum is that of the samples one by one: these laws leave no other function. */
  lemma {:induction false} SumLaws(s: seq<int>, t: seq<int>, x: int)
    ensures Sum([]) == 0 && Sum([x]) == x && Sum(s + t) == Sum(s) + Sum(t)
    decreases |t|
  {
    SumAppend([], x);
    assert [] + [x] == [x];
    if t == [] {
      assert s + t == s;
    } else {
      SumLaws(s, t[..|t| - 1], x);
      assert (s + t)[..|s + t| - 1] == s + t[..|t| - 1];
    }
  }

  function Sum(s: seq<int>): int {
    if s == [] then 0 else Sum(s[..|s| - 1]) + s[|s| - 1]
  }

  lemma SumAppend(s: seq<int>, x: int)
    ensures Sum(s + [x]) == Sum(s) + x
  {
    assert (s + [x])[..|s|] == s;
  }

  lemma {:induction false} SumOfPositive(s: seq<int>)
    ensures Sum(Recorded(s)) >= |Recorded(s)|
  {
    if s != [] {
      SumOfPositive(s[..|s| - 1]);
      SumAppend(Recorded(s[..|s| - 1]), s[|s| - 1]);
      assert Recorded(s[..|s| - 1]) + [] == Recorded(s[..|s| - 1]);
    }
  }

  method Totals(latencies: seq<int>) returns (total: int, count: nat)
    ensures total == Sum(Recorded(latencies)) && count == |Recorded(latencies)|
  {
    total, count := 0, 0;
    for i := 0 to |latencies|
      invariant total == Sum(Recorded(latencies[..i])) && count == |Recorded(latencies[..i])|
    {
      assert latencies[..i + 1][..i] == latencies[..i];
      assert Recorded(latencies[..i]) + [] == Recorded(latencies[..i]);
      if latencies[i] > 0 {
        SumAppend(Recorded(latencies[..i]), latencies[i]);
        total := total + latencies[i];
        count := count + 1;
      }
    }
    assert latencies[..|latencies|] == latencies;
  }

  /** `average` is the mean of the samples, rounded down. */
  predicate Average(samples: seq<int>, average: int) {
    average * |samples| <= Sum(samples) < (average + 1) * |samples|
  }

  lemma AverageUnique(samples: seq<int>, a: int, b: int)
    requires Average(samples, a) && Average(samples, b)
    ensures a == b
  {
    if a < b {
      NoGreater(a + 1, b, |samples|);
    } else if b < a {
      NoGreater(b + 1, a, |samples|);
    }
  }

  lemma NoGreater(a: int, b: int, n: nat)
    requires a <= b
    ensures a * n <= b * n
  {
    assert b * n == a * n + (b - a) * n;
  }

  lemma QuotientIsAverage(samples: seq<int>)
    requires samples != [] && Sum(samples) >= 0
    ensures Average(samples, Sum(samples) / |samples|)
  {
    var n, q := |samples|, Sum(samples) / |samples|;
    assert Sum(samples) == n * q + Sum(samples) % n;
    assert (q + 1) * n == q * n + n;
  }

  method Record(latencies: seq<int>) returns (recorded: seq<int>)
    ensures recorded == Recorded(latencies)
  {
    recorded := [];
    for i := 0 to |latencies|
      invariant recorded == Recorded(latencies[..i])
    {
      assert latencies[..i + 1][..i] == latencies[..i];
      if latencies[i] > 0 {
        recorded := recorded + [latencies[i]];
      }
    }
    assert latencies[..|latencies|] == latencies;
  }

  method PrintStats(latencies: seq<int>) returns (stats: Stats)
    ensures stats.NoSamples? <==> Recorded(latencies) == []
    ensures stats.Stats? ==>
              var samples := Recorded(latencies);
              && Average(samples, stats.average)
              && Percentile(samples, 50, stats.p50)
              && Percentile(samples, 90, stats.p90)
              && Percentile(samples, 95, stats.p95)
              && Percentile(samples, 99, stats.p99)
    ensures stats.Stats? ==> stats.p50 <= stats.p90 <= stats.p95 <= stats.p99
  {
    var total, count := Totals(latencies);
    if count == 0 {
      return NoSamples;
    }
    var average := total / count;
    SumOfPositive(latencies);
    QuotientIsAverage(Recorded(latencies));
    var recorded := Record(latencies);
    var sorted := new int[|recorded|](i requires 0 <= i < |recorded| => recorded[i]);
    assert sorted[..] == recorded;
    InsertionSort(sorted);
    var n := sorted.Length;
    ghost var s := sorted[..];
    SortedPercentile(recorded, s, 50);
    SortedPercentile(recorded, s, 90);
    SortedPercentile(recorded, s, 95);
    SortedPercentile(recorded, s, 99);
    PercentilesOrdered(s, 50, 90);
    PercentilesOrdered(s, 90, 95);
    PercentilesOrdered(s, 95, 99);
    stats := Stats(average, sorted[Rank(n, 50)], sorted[Rank(n, 90)], sorted[Rank(n, 95)], sorted[Rank(n, 99)]);
  }
}
