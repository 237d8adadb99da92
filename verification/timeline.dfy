/** The run-length timeline of feature 3: one bucket per distinct second,
    holding the number of requests logged at that second, and the counts
    over closed time windows that the busiest-hour search works with.
    Times are whole seconds. */
module Timeline {

  datatype Bucket = Bucket(time: int, count: nat)

  /** The number of requests the buckets stand for. */
  function SumCounts(b: seq<Bucket>): nat
  {
    if b == [] then 0 else SumCounts(b[..|b| - 1]) + b[|b| - 1].count
  }

  /** The number of requests in the buckets whose time lies in the closed
      window `[lo, hi]`. */
  function WindowCount(b: seq<Bucket>, lo: int, hi: int): nat
  {
    if b == [] then 0
    else
      var last := b[|b| - 1];
      WindowCount(b[..|b| - 1], lo, hi) + (if lo <= last.time <= hi then last.count else 0)
  }

  /** Each bucket is at a later second than the one before it. */
  ghost predicate Increasing(b: seq<Bucket>)
  {
    forall i, j :: 0 <= i && j == i + 1 && j < |b| ==> b[i].time < b[j].time
  }

  /** In an increasing timeline, buckets `j - i` places apart are at least
      `j - i` seconds apart. */
  lemma {:induction false} Apart(b: seq<Bucket>, i: int, j: int)
    requires Increasing(b) && 0 <= i <= j < |b|
    ensures b[j].time - b[i].time >= j - i
    decreases j - i
  {
    if i < j {
      Apart(b, i, j - 1);
    }
  }

  lemma IncreasingEverywhere(b: seq<Bucket>)
    requires Increasing(b)
    ensures forall i, j :: 0 <= i < j < |b| ==> b[i].time < b[j].time
  {
    forall i, j | 0 <= i < j < |b|
      ensures b[i].time < b[j].time
    {
      Apart(b, i, j);
    }
  }

  ghost predicate AdjacentDistinct(b: seq<Bucket>)
  {
    forall i :: 0 < i < |b| ==> b[i - 1].time != b[i].time
  }

  ghost predicate Positive(b: seq<Bucket>)
  {
    forall i :: 0 <= i < |b| ==> b[i].count > 0
  }

  ghost predicate Sorted(ts: seq<int>)
  {
    forall i, j :: 0 <= i < j < |ts| ==> ts[i] <= ts[j]
  }

  /** Records one request at second `t`: a repeated second adds one to the
      last bucket, any other second opens a new bucket with count 1. */
  function Coalesce(b: seq<Bucket>, t: int): (r: seq<Bucket>)
    ensures SumCounts(r) == SumCounts(b) + 1
    ensures forall lo, hi :: WindowCount(r, lo, hi) == WindowCount(b, lo, hi) + (if lo <= t <= hi then 1 else 0)
    ensures |b| <= |r| <= |b| + 1
    ensures |r| == |b| <==> b != [] && b[|b| - 1].time == t
    ensures forall i :: 0 <= i < |b| - 1 ==> r[i] == b[i]
    ensures |r| == |b| + 1 ==> r[..|b|] == b
    ensures r[|r| - 1].time == t
    ensures r[0].time == if b == [] then t else b[0].time
    ensures AdjacentDistinct(b) ==> AdjacentDistinct(r)
    ensures Positive(b) ==> Positive(r)
    ensures Increasing(b) && (b == [] || b[|b| - 1].time <= t) ==> Increasing(r)
  {
    if b == [] || b[|b| - 1].time != t then
      var r := b + [Bucket(t, 1)];
      assert r[..|r| - 1] == b;
      r
    else
      var r := b[|b| - 1 := Bucket(t, b[|b| - 1].count + 1)];
      assert r[..|r| - 1] == b[..|b| - 1];
      r
  }

  /** The timeline built from the request times in log order. */
  function Bucketed(ts: seq<int>): (r: seq<Bucket>)
    ensures |r| <= |ts|
    ensures ts != [] ==> r != [] && r[0].time == ts[0] && r[|r| - 1].time == ts[|ts| - 1]
  {
    if ts == [] then []
    else
      var front := ts[..|ts| - 1];
      assert front != [] ==> front[0] == ts[0];
      Coalesce(Bucketed(front), ts[|ts| - 1])
  }

  /** Every request is counted once: in all, and in every closed window. */
  lemma {:induction false} BucketedCounts(ts: seq<int>)
    ensures SumCounts(Bucketed(ts)) == |ts|
    ensures forall lo, hi :: WindowCount(Bucketed(ts), lo, hi) == CountIn(ts, lo, hi)
  {
    if ts != [] {
      var front := ts[..|ts| - 1];
      BucketedCounts(front);
      forall lo, hi
        ensures WindowCount(Bucketed(ts), lo, hi) == CountIn(ts, lo, hi)
      {
        assert WindowCount(Bucketed(front), lo, hi) == CountIn(front, lo, hi);
      }
    }
  }

  /** No bucket is empty and no two neighbouring buckets share a second. */
  lemma {:induction false} BucketedShape(ts: seq<int>)
    ensures Positive(Bucketed(ts)) && AdjacentDistinct(Bucketed(ts))
  {
    if ts != [] {
      BucketedShape(ts[..|ts| - 1]);
    }
  }

  /** Request times in chronological order give strictly increasing
      bucket times. */
  lemma {:induction false} BucketedIncreasing(ts: seq<int>)
    requires Sorted(ts)
    ensures Increasing(Bucketed(ts))
  {
    if ts != [] {
      var front := ts[..|ts| - 1];
      SortedFront(ts);
      BucketedIncreasing(front);
    }
  }

  lemma SortedFront(ts: seq<int>)
    requires ts != [] && Sorted(ts)
    ensures Sorted(ts[..|ts| - 1])
    ensures |ts| > 1 ==> ts[|ts| - 2] <= ts[|ts| - 1]
  {
  }

  /** The number of request times in `[lo, hi]`, counted one by one. */
  function CountIn(ts: seq<int>, lo: int, hi: int): nat
  {
    if ts == [] then 0
    else CountIn(ts[..|ts| - 1], lo, hi) + (if lo <= ts[|ts| - 1] <= hi then 1 else 0)
  }

  /** Moving a window one second later loses the requests of its first
      second and gains those of the second after its end. */
  lemma {:induction false} WindowShift(b: seq<Bucket>, lo: int, hi: int)
    requires lo <= hi
    ensures WindowCount(b, lo + 1, hi + 1) == WindowCount(b, lo, hi) + WindowCount(b, hi + 1, hi + 1) - WindowCount(b, lo, lo)
  {
    if b != [] {
      WindowShift(b[..|b| - 1], lo, hi);
    }
  }

  /** In a timeline with increasing times, the requests at a bucket's own
      second are exactly that bucket's count. */
  lemma {:induction false} CountAtBucket(b: seq<Bucket>, k: int)
    requires Increasing(b) && 0 <= k < |b|
    ensures WindowCount(b, b[k].time, b[k].time) == b[k].count
  {
    var front := b[..|b| - 1];
    if k == |b| - 1 {
      IncreasingEverywhere(b);
      WindowCountOutside(front, b[k].time, b[k].time);
    } else {
      Apart(b, k, |b| - 1);
      CountAtBucket(front, k);
    }
  }

  /** No bucket inside the window: nothing is counted. */
  lemma {:induction false} WindowCountOutside(b: seq<Bucket>, lo: int, hi: int)
    requires forall i :: 0 <= i < |b| ==> b[i].time < lo || b[i].time > hi
    ensures WindowCount(b, lo, hi) == 0
  {
    if b != [] {
      WindowCountOutside(b[..|b| - 1], lo, hi);
    }
  }

  /** The buckets from index `n` on lie after the window, so the window
      counts only buckets before `n`. */
  lemma {:induction false} WindowCountPrefix(b: seq<Bucket>, n: nat, lo: int, hi: int)
    requires n <= |b|
    requires forall i :: n <= i < |b| ==> b[i].time > hi
    ensures WindowCount(b, lo, hi) == WindowCount(b[..n], lo, hi)
    decreases |b|
  {
    if n < |b| {
      WindowCountPrefix(b[..|b| - 1], n, lo, hi);
      assert b[..|b| - 1][..n] == b[..n];
    } else {
      assert b[..n] == b;
    }
  }
}
