/** The refresh latency histogram and its p95 (internal/service/content_ranking.go). Durations in milliseconds. */
module RankingMetrics {
  import opened Common

  const BOUNDS: seq<Time> := [50, 100, 250, 500, 1000, 2000]

  // The bucket a duration is counted in; the seventh has no upper bound.
  function Bucket(d: Time): nat {
    if d <= 50 then 0 else if d <= 100 then 1 else if d <= 250 then 2
    else if d <= 500 then 3 else if d <= 1000 then 4 else if d <= 2000 then 5 else 6
  }

  function Count(ds: seq<Time>, b: nat): nat {
    if ds == [] then 0 else Count(ds[..|ds| - 1], b) + (if Bucket(ds[|ds| - 1]) == b then 1 else 0)
  }

  // How many durations are in bucket b or a lower one.
  function CountUpTo(ds: seq<Time>, b: int): nat {
    if ds == [] then 0 else CountUpTo(ds[..|ds| - 1], b) + (if Bucket(ds[|ds| - 1]) <= b then 1 else 0)
  }

  lemma {:induction false} CountUpToSteps(ds: seq<Time>, b: nat)
    ensures CountUpTo(ds, b) == CountUpTo(ds, b - 1) + Count(ds, b)
    ensures b >= 6 ==> CountUpTo(ds, b) == |ds|
    ensures CountUpTo(ds, -1) == 0
  {
    if ds != [] {
      CountUpToSteps(ds[..|ds| - 1], b);
    }
  }

  // The rank of the 95th percentile: ceil(0.95 * n).
  function Rank(n: nat): nat { (n * 95 + 99) / 100 }

  lemma RankIsCeiling(n: nat)
    ensures 100 * (Rank(n) - 1) < 95 * n <= 100 * Rank(n)
    ensures n > 0 ==> 1 <= Rank(n) <= n
  {
  }

  ghost predicate Sorted(ds: seq<Time>) {
    forall i, j :: 0 <= i <= j < |ds| ==> ds[i] <= ds[j]
  }

  lemma {:induction false} CountConcat(x: seq<Time>, y: seq<Time>, b: int)
    ensures CountUpTo(x + y, b) == CountUpTo(x, b) + CountUpTo(y, b)
  {
    if y == [] {
      assert x + y == x;
    } else {
      assert (x + y)[..|x + y| - 1] == x + y[..|y| - 1];
      CountConcat(x, y[..|y| - 1], b);
    }
  }

  function Except(y: seq<Time>, i: nat): seq<Time>
    requires i < |y|
  {
    y[..i] + y[i + 1..]
  }

  lemma TakeOut(y: seq<Time>, i: nat)
    requires i < |y|
    ensures multiset(Except(y, i)) == multiset(y) - multiset{y[i]}
  {
    assert y == y[..i] + [y[i]] + y[i + 1..];
  }

  lemma CountTakeOut(y: seq<Time>, i: nat, b: int)
    requires i < |y|
    ensures CountUpTo(y, b) == CountUpTo(Except(y, i), b) + (if Bucket(y[i]) <= b then 1 else 0)
  {
    assert y == y[..i] + ([y[i]] + y[i + 1..]);
    CountConcat(y[..i], [y[i]] + y[i + 1..], b);
    CountConcat([y[i]], y[i + 1..], b);
    CountConcat(y[..i], y[i + 1..], b);
    assert [y[i]][..0] == [];
  }

  // The count does not depend on the order of the durations.
  lemma {:induction false} CountPermuted(x: seq<Time>, y: seq<Time>, b: int)
    requires multiset(x) == multiset(y)
    ensures |x| == |y| && CountUpTo(x, b) == CountUpTo(y, b)
  {
    assert |multiset(x)| == |x| && |multiset(y)| == |y|;
    if x != [] {
      var d := x[|x| - 1];
      assert Except(x, |x| - 1) == x[..|x| - 1];
      TakeOut(x, |x| - 1);
      assert d in multiset(x) && d in multiset(y);
      var i :| 0 <= i < |y| && y[i] == d;
      TakeOut(y, i);
      CountTakeOut(y, i, b);
      CountPermuted(x[..|x| - 1], Except(y, i), b);
    }
  }

  // In a sorted sequence the durations up to a bucket are a prefix.
  lemma {:induction false} SortedPrefix(s: seq<Time>, b: int)
    requires Sorted(s)
    ensures CountUpTo(s, b) <= |s|
    ensures forall i :: 0 <= i < |s| ==> (Bucket(s[i]) <= b <==> i < CountUpTo(s, b))
  {
    if s != [] {
      var init := s[..|s| - 1];
      SortedPrefix(init, b);
      if Bucket(s[|s| - 1]) <= b {
        forall i | 0 <= i < |s|
          ensures Bucket(s[i]) <= b
        {
          assert s[i] <= s[|s| - 1];
        }
        assert forall i :: 0 <= i < |init| ==> init[i] == s[i];
        assert CountUpTo(init, b) == |init| by {
          assert |init| > 0 ==> Bucket(init[|init| - 1]) <= b;
        }
      }
    }
  }

  // A bucket whose running total first reaches a rank holds the element of that rank.
  lemma FirstReaching(ds: seq<Time>, sorted: seq<Time>, i: nat, rank: nat)
    requires 1 <= rank <= |ds| && Sorted(sorted) && multiset(sorted) == multiset(ds)
    requires CountUpTo(ds, i) >= rank > CountUpTo(ds, i - 1)
    ensures |sorted| == |ds| && i == Bucket(sorted[rank - 1])
  {
    CountPermuted(ds, sorted, i);
    CountPermuted(ds, sorted, i - 1);
    SortedPrefix(sorted, i);
    SortedPrefix(sorted, i - 1);
  }

  /** The counters of the ranking service. */
  class Metrics {
    const buckets: array<nat>
    var total: nat
    var sum: Time

    predicate Shaped()
      reads this
    {
      buckets.Length == 7
    }

    // The buckets after these refreshes and no others.
    ghost predicate Bucketed(ds: seq<Time>)
      reads this, buckets
    {
      Shaped() && forall b :: 0 <= b < 7 ==> buckets[b] == Count(ds, b)
    }

    ghost predicate Holds(ds: seq<Time>)
      reads this, buckets
    {
      Bucketed(ds) && total == |ds|
    }

    constructor ()
      ensures Holds([]) && sum == 0 && fresh(buckets)
    {
      buckets := new nat[7](_ => 0);
      total, sum := 0, 0;
    }

    method RecordRefreshDuration(d: Time, ghost ds: seq<Time>)
      requires Holds(ds)
      modifies this, buckets
      ensures Holds(ds + [d]) && sum == old(sum) + d
    {
      sum := sum + d;
      total := total + 1;
      var idx := |BOUNDS|;
      var i := 0;
      while i < |BOUNDS|
        invariant 0 <= i <= |BOUNDS| && idx == |BOUNDS|
        invariant forall j :: 0 <= j < i ==> BOUNDS[j] < d
      {
        if d <= BOUNDS[i] {
          idx := i;
          break;
        }
        i := i + 1;
      }
      assert idx == Bucket(d) by {
        assert i > 0 ==> BOUNDS[i - 1] < d;
      }
      buckets[idx] := buckets[idx] + 1;
      assert (ds + [d])[..|ds|] == ds;
    }

    // Nothing to look for, or too little in the buckets to find it.
    predicate RunsOff()
      requires Shaped()
      reads this, buckets
    {
      total == 0 || Running(6) < Rank(total)
    }

    // The bucket the scan stops at, if it stops.
    method Scan() returns (stop: Option<nat>)
      requires Shaped()
      ensures stop.Some? ==> stop.value < 7 && Running(stop.value) >= Rank(total)
                             && forall i :: 0 <= i < stop.value ==> Running(i) < Rank(total)
      ensures stop.None? <==> RunsOff()
    {
      if total == 0 {
        return None;
      }
      var target := (total * 95 + 99) / 100;
      var cumulative := 0;
      var i := 0;
      while i < buckets.Length
        invariant 0 <= i <= 7
        invariant cumulative == if i == 0 then 0 else Running(i - 1)
        invariant forall j :: 0 <= j < i ==> Running(j) < target
      {
        cumulative := cumulative + buckets[i];
        if cumulative >= target {
          RunningGrows(i, 6);
          return Some(i);
        }
        i := i + 1;
      }
      return None;
    }

    function Running(i: nat): nat
      requires Shaped() && i < 7
      reads this, buckets
    {
      buckets[i] + if i == 0 then 0 else Running(i - 1)
    }

    lemma {:induction false} RunningCounts(ds: seq<Time>, i: nat)
      requires Bucketed(ds) && i < 7
      ensures Running(i) == CountUpTo(ds, i)
    {
      CountUpToSteps(ds, i);
      if i > 0 {
        RunningCounts(ds, i - 1);
      }
    }

    lemma {:induction false} RunningGrows(i: nat, j: nat)
      requires Shaped() && i <= j < 7
      ensures Running(i) <= Running(j)
    {
      if i < j {
        RunningGrows(i, j - 1);
      }
    }

    /** With ds what the scan finds in the buckets, whatever the total that was loaded before it, the reported p95 is
        the bucket bound of the element of rank ceil(0.95 total) of ds in order, the overflow bucket reported as 2000
        ms too; and it is 0 if and only if nothing was counted or fewer than 19 are found for each counted one that is
        missing. */
    method P95(ghost ds: seq<Time>, ghost sorted: seq<Time>) returns (p95: Time)
      requires Bucketed(ds) && Sorted(sorted) && multiset(sorted) == multiset(ds)
      ensures p95 == 0 <==> total == 0 || |ds| < 19 * (total - |ds|)
      ensures p95 != 0 ==> |sorted| == |ds| && 1 <= Rank(total) <= |ds|
      ensures p95 != 0 ==>
                var d := sorted[Rank(total) - 1];
                p95 == if d <= 50 then 50 else if d <= 100 then 100 else if d <= 250 then 250
                       else if d <= 500 then 500 else if d <= 1000 then 1000 else 2000
    {
      var stop := Scan();
      RankIsCeiling(total);
      CountUpToSteps(ds, 6);
      RunningCounts(ds, 6);
      if stop.None? {
        return 0;
      }
      var i := stop.value;
      p95 := if i < |BOUNDS| then BOUNDS[i] else 2000;
      RunningCounts(ds, i);
      if i > 0 {
        RunningCounts(ds, i - 1);
      } else {
        CountUpToSteps(ds, 0);
      }
      FirstReaching(ds, sorted, i, Rank(total));
    }

    /** The scan runs off the end if and only if fewer than 19 refreshes are found for each counted one that is
        missing. */
    lemma HalfRecorded(ds: seq<Time>)
      requires Bucketed(ds) && total > 0
      ensures RunsOff() <==> |ds| < 19 * (total - |ds|)
    {
      CountUpToSteps(ds, 6);
      RunningCounts(ds, 6);
    }
  }
}
