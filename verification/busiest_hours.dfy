/** Feature 3: the ten busiest one-hour windows.  A window starting at
    second `left` is the closed span `[left, left + 3600]`.  The search
    slides the window one second at a time from the first bucket's second
    until it starts after the last bucket, keeping the number of requests
    inside it with two cursors into the bucket sequence. */
module BusiestHours {
  import opened Ranking
  import opened Timeline

  /** One hour, the length `right - left` of every window. */
  const HourSpan: int := 3600

  /** Every candidate the search produces, in order: one window per start
      second from the first bucket's second to one past the last bucket's,
      each scored with the brute-force count of the requests inside it. */
  function AllWindows(b: seq<Bucket>): seq<Ranked<int>>
    requires b != [] && Increasing(b)
  {
    var first, last := b[0].time, b[|b| - 1].time;
    Apart(b, 0, |b| - 1);
    seq(last - first + 2, i => Ranked(first + i, WindowCount(b, first + i, first + i + HourSpan)))
  }

  /** The candidates start at every second from the first bucket's to one
      past the last bucket's; the last of them is empty. */
  lemma WindowsCover(b: seq<Bucket>)
    requires b != [] && Increasing(b)
    ensures var ws, first, last := AllWindows(b), b[0].time, b[|b| - 1].time;
      && |ws| == last - first + 2
      && |ws| >= 2
      && ws[0] == Ranked(first, WindowCount(b, first, first + HourSpan))
      && ws[|ws| - 1] == Ranked(last + 1, 0)
      && forall i :: 0 <= i < |ws| ==> ws[i].item == first + i
  {
    var last := b[|b| - 1].time;
    Apart(b, 0, |b| - 1);
    forall i | 0 <= i < |b|
      ensures b[i].time < last + 1
    {
      Apart(b, i, |b| - 1);
    }
    WindowCountOutside(b, last + 1, last + 1 + HourSpan);
  }

  /** A second that falls between two neighbouring buckets holds no
      request. */
  lemma NoBucketAt(b: seq<Bucket>, k: nat, t: int)
    requires Increasing(b) && k <= |b|
    requires k == 0 || b[k - 1].time < t
    requires k == |b| || b[k].time > t
    ensures WindowCount(b, t, t) == 0
  {
    forall i | 0 <= i < |b|
      ensures b[i].time < t || b[i].time > t
    {
      if i < k {
        Apart(b, i, k - 1);
      } else {
        Apart(b, k, i);
      }
    }
    WindowCountOutside(b, t, t);
  }

  /** The first loop of `computeHours`: the requests of the window that
      starts at the first bucket's second. */
  method OpeningWindow(b: seq<Bucket>) returns (accesses: int, indexRight: nat)
    requires b != [] && Increasing(b)
    ensures accesses == WindowCount(b, b[0].time, b[0].time + HourSpan)
    ensures 0 < indexRight <= |b|
    ensures b[indexRight - 1].time <= b[0].time + HourSpan
    ensures indexRight == |b| || b[indexRight].time > b[0].time + HourSpan
  {
    var left, right := b[0].time, b[0].time + HourSpan;
    accesses, indexRight := 0, 0;
    while indexRight < |b| && b[indexRight].time <= right
      invariant 0 <= indexRight <= |b|
      invariant indexRight == 0 || b[indexRight - 1].time <= right
      invariant accesses == WindowCount(b[..indexRight], left, right)
    {
      assert b[..indexRight + 1][..indexRight] == b[..indexRight];
      Apart(b, 0, indexRight);
      accesses := accesses + b[indexRight].count;
      indexRight := indexRight + 1;
    }
    forall j | indexRight <= j < |b|
      ensures b[j].time > right
    {
      Apart(b, indexRight, j);
    }
    WindowCountPrefix(b, indexRight, left, right);
  }

  /** Each of `windows` is the window starting `i` seconds after the first
      bucket, scored with its brute-force count. */
  ghost predicate ScoredWindows(b: seq<Bucket>, windows: seq<Ranked<int>>)
    requires b != []
  {
    forall i :: 0 <= i < |windows| ==> windows[i] == Ranked(b[0].time + i, WindowCount(b, b[0].time + i, b[0].time + i + HourSpan))
  }

  lemma WindowsComplete(b: seq<Bucket>, windows: seq<Ranked<int>>)
    requires b != [] && Increasing(b)
    requires |windows| == b[|b| - 1].time - b[0].time + 2
    requires ScoredWindows(b, windows)
    ensures windows == AllWindows(b)
  {
  }

  /** One more window, the next second's with its true count, keeps the
      list scored. */
  lemma ScoredSnoc(b: seq<Bucket>, windows: seq<Ranked<int>>, w: Ranked<int>)
    requires b != [] && ScoredWindows(b, windows)
    requires w == Ranked(b[0].time + |windows|, WindowCount(b, w.item, w.item + HourSpan))
    ensures ScoredWindows(b, windows + [w])
  {
  }

  /** Where the cursors of the sliding loop stand for the window starting
      at `left`: the buckets before `indexLeft` are before the window, the
      buckets from `indexRight` on are after it. */
  ghost predicate Cursors(b: seq<Bucket>, left: int, indexLeft: int, indexRight: int)
  {
    && 0 <= indexLeft <= indexRight <= |b|
    && (indexLeft == 0 || b[indexLeft - 1].time < left)
    && (indexLeft == |b| || b[indexLeft].time >= left)
    && (indexRight == 0 || b[indexRight - 1].time <= left + HourSpan)
    && (indexRight == |b| || b[indexRight].time > left + HourSpan)
  }

  /** One step of the sliding loop is enough: moving the window one second
      later, at most the bucket under the right cursor enters it and at
      most the bucket under the left cursor leaves it. */
  lemma Slide(b: seq<Bucket>, left: int, indexLeft: int, indexRight: int)
    requires Increasing(b) && Cursors(b, left, indexLeft, indexRight)
    ensures var enters := indexRight < |b| && b[indexRight].time <= left + 1 + HourSpan;
            var leaves := indexLeft < |b| && b[indexLeft].time < left + 1;
            var indexRight' := if enters then indexRight + 1 else indexRight;
            var indexLeft' := if leaves then indexLeft + 1 else indexLeft;
            && Cursors(b, left + 1, indexLeft', indexRight')
            && WindowCount(b, left + 1, left + 1 + HourSpan)
               == WindowCount(b, left, left + HourSpan)
                  + (if enters then b[indexRight].count else 0)
                  - (if leaves then b[indexLeft].count else 0)
  {
    var right := left + HourSpan;
    WindowShift(b, left, right);
    if indexRight < |b| && b[indexRight].time <= right + 1 {
      CountAtBucket(b, indexRight);
      assert indexRight + 1 < |b| ==> b[indexRight].time < b[indexRight + 1].time;
    } else {
      NoBucketAt(b, indexRight, right + 1);
    }
    if indexLeft < |b| && b[indexLeft].time < left + 1 {
      CountAtBucket(b, indexLeft);
      assert indexLeft + 1 < |b| ==> b[indexLeft].time < b[indexLeft + 1].time;
    } else {
      NoBucketAt(b, indexLeft, left);
    }
  }

  /** `computeHours`: the candidate windows found by the sliding sum, then
      the ten with the most requests, busiest first. */
  method ComputeHours(secondList: seq<Bucket>) returns (top: seq<Ranked<int>>)
    requires secondList != [] && Increasing(secondList)
    ensures top == TopK(AllWindows(secondList), TopCount)
  {
    var windows := SlidingWindows(secondList);
    top := TopK(windows, TopCount);
  }

  /** The two loops of `computeHours`: one candidate `(accesses, left)` per
      start second, the number of requests kept up to date with two
      cursors instead of being recounted. */
  method SlidingWindows(b: seq<Bucket>) returns (windows: seq<Ranked<int>>)
    requires b != [] && Increasing(b)
    ensures windows == AllWindows(b)
  {
    var left := b[0].time;
    var right := b[0].time + HourSpan;
    var accesses, indexRight := OpeningWindow(b);
    var indexLeft := 0;
    windows := [Ranked(left, accesses)];
    ghost var first, last := b[0].time, b[|b| - 1].time;
    Apart(b, 0, |b| - 1);

    while left <= b[|b| - 1].time
      invariant first <= left <= last + 1
      invariant right == left + HourSpan
      invariant Cursors(b, left, indexLeft, indexRight)
      invariant accesses == WindowCount(b, left, right)
      invariant |windows| == left - first + 1
      invariant ScoredWindows(b, windows)
      decreases last - left
    {
      Slide(b, left, indexLeft, indexRight);
      left := left + 1;
      right := right + 1;
      if indexRight < |b| && b[indexRight].time <= right {
        accesses := accesses + b[indexRight].count;
        indexRight := indexRight + 1;
      }
      if indexLeft < |b| && b[indexLeft].time < left {
        accesses := accesses - b[indexLeft].count;
        indexLeft := indexLeft + 1;
      }
      ScoredSnoc(b, windows, Ranked(left, accesses));
      windows := windows + [Ranked(left, accesses)];
    }
    WindowsComplete(b, windows);
  }

  /** Among entries with equal scores, the earlier-starting window comes
      first. */
  ghost predicate EarlierFirst(s: seq<Ranked<int>>)
  {
    forall i, j :: 0 <= i < j < |s| && s[i].score == s[j].score ==> s[i].item < s[j].item
  }

  /** The start seconds strictly increase along `s`. */
  ghost predicate StartsIncrease(s: seq<Ranked<int>>)
  {
    forall i, j :: 0 <= i < j < |s| ==> s[i].item < s[j].item
  }

  /** Inserting a window that starts before every entry of `s` keeps the
      earlier window of every tie in front. */
  lemma {:induction false} InsertEarlierFirst(x: Ranked<int>, s: seq<Ranked<int>>)
    requires EarlierFirst(s)
    requires forall i :: 0 <= i < |s| ==> x.item < s[i].item
    ensures EarlierFirst(Insert(x, s))
  {
    if s == [] || x.score >= s[0].score {
    } else {
      var tail := s[1..];
      InsertEarlierFirst(x, tail);
      var r := Insert(x, s);
      assert r == [s[0]] + Insert(x, tail);
      forall j | 0 < j < |r| && r[0].score == r[j].score
        ensures r[0].item < r[j].item
      {
        assert r[j] in multiset(Insert(x, tail));
        assert r[j] != x;
        assert r[j] in multiset(tail);
        HeadEarlier(s, r[j]);
      }
    }
  }

  lemma HeadEarlier(s: seq<Ranked<int>>, y: Ranked<int>)
    requires EarlierFirst(s) && s != [] && y in s[1..] && y.score == s[0].score
    ensures s[0].item < y.item
  {
    var k :| 0 <= k < |s| - 1 && s[1..][k] == y;
    assert s[k + 1] == y;
  }

  /** Sorting windows listed by increasing start puts, in every tie, the
      earlier window first. */
  lemma {:induction false} SortDescEarlierFirst(s: seq<Ranked<int>>)
    requires StartsIncrease(s)
    ensures EarlierFirst(SortDesc(s))
  {
    if s != [] {
      var tail := s[1..];
      SortDescEarlierFirst(tail);
      var t := SortDesc(tail);
      forall i | 0 <= i < |t|
        ensures s[0].item < t[i].item
      {
        assert t[i] in multiset(tail);
        var k :| 0 <= k < |tail| && tail[k] == t[i];
        assert s[k + 1] == t[i];
      }
      InsertEarlierFirst(s[0], t);
    }
  }

  lemma {:induction false} WithScoreStartsIncrease(s: seq<Ranked<int>>, v: int)
    requires StartsIncrease(s)
    ensures StartsIncrease(WithScore(s, v))
  {
    if s != [] {
      var tail := s[1..];
      WithScoreStartsIncrease(tail, v);
      var w := WithScore(tail, v);
      forall i | 0 <= i < |w|
        ensures s[0].item < w[i].item
      {
        WithScoreMember(tail, v, w[i]);
        var k :| 0 <= k < |tail| && tail[k] == w[i];
        assert s[k + 1] == w[i];
      }
    }
  }

  /** A window that ties with a listed one but was left out starts later:
      the listing keeps, for every score, a prefix of the windows with that
      score in start order. */
  lemma LeftOutTieStartsLater(ws: seq<Ranked<int>>, r: seq<Ranked<int>>, w: Ranked<int>, x: Ranked<int>)
    requires StartsIncrease(ws)
    requires forall v :: IsPrefix(WithScore(r, v), WithScore(ws, v))
    requires w in ws && w !in r && x in r && w.score == x.score
    ensures x.item < w.item
  {
    var v := x.score;
    var sw, sr := WithScore(ws, v), WithScore(r, v);
    assert IsPrefix(sr, sw);
    WithScoreStartsIncrease(ws, v);
    WithScoreMember(ws, v, w);
    WithScoreMember(r, v, w);
    WithScoreMember(r, v, x);
    var p :| 0 <= p < |sr| && sr[p] == x;
    var q :| 0 <= q < |sw| && sw[q] == w;
    assert sw[p] == x;
    forall k | 0 <= k < |sr|
      ensures sw[k] != w
    {
      assert sw[k] == sr[k];
    }
  }

  /** The windows listed are candidates: each starts between the first
      bucket's second and one past the last bucket's and is scored with the
      number of requests in its closed hour. */
  lemma {:induction false} ListedAreCandidates(b: seq<Bucket>, r: seq<Ranked<int>>)
    requires b != [] && Increasing(b)
    requires multiset(r) <= multiset(AllWindows(b))
    ensures forall i :: 0 <= i < |r| ==> IsWindow(b, r[i])
  {
    var ws := AllWindows(b);
    WindowsCover(b);
    forall i | 0 <= i < |r|
      ensures IsWindow(b, r[i])
    {
      assert r[i] in multiset(ws);
      var k :| 0 <= k < |ws| && ws[k] == r[i];
    }
  }

  /** `w` is a window of the timeline: it starts between the first
      bucket's second and one past the last bucket's and is scored with the
      number of requests in its closed hour. */
  ghost predicate IsWindow(b: seq<Bucket>, w: Ranked<int>)
    requires b != []
  {
    b[0].time <= w.item <= b[|b| - 1].time + 1 && w.score == WindowCount(b, w.item, w.item + HourSpan)
  }

  /** No window of `ws` that `r` leaves out is busier than one `r` lists,
      and one that ties with a listed window starts later. */
  ghost predicate Outranks(r: seq<Ranked<int>>, ws: seq<Ranked<int>>)
  {
    forall w, i :: w in ws && w !in r && 0 <= i < |r| ==>
      w.score <= r[i].score && (w.score == r[i].score ==> r[i].item < w.item)
  }

  /** The ten busiest windows of a timeline: as many as there are
      candidates, up to ten; busiest first; each a window of the timeline
      scored with the number of requests in its closed hour; no window left
      out is busier than one listed; and in a tie the earlier window is
      listed first, even against a tied window that is left out. */
  lemma TopHours(b: seq<Bucket>)
    requires b != [] && Increasing(b)
    ensures var r := TopK(AllWindows(b), TopCount);
      && |r| == Min(TopCount, b[|b| - 1].time - b[0].time + 2)
      && NonIncreasing(r)
      && EarlierFirst(r)
      && (forall i :: 0 <= i < |r| ==> IsWindow(b, r[i]))
      && Outranks(r, AllWindows(b))
  {
    var ws := AllWindows(b);
    WindowsCover(b);
    assert StartsIncrease(ws);
    TopKEarlierFirst(ws, TopCount);
    TopKLeftOut(ws, TopCount);
    ListedAreCandidates(b, TopK(ws, TopCount));
  }

  /** Over windows listed by increasing start, the selection lists the
      earlier window of every tie first. */
  lemma TopKEarlierFirst(s: seq<Ranked<int>>, k: nat)
    requires StartsIncrease(s)
    ensures EarlierFirst(TopK(s, k))
  {
    SortDescEarlierFirst(s);
    var t := SortDesc(s);
    assert TopK(s, k) == t[..Min(k, |s|)];
  }

  /** Over windows listed by increasing start, a window the selection leaves
      out is no busier than any listed one, and starts later than any listed
      one it ties with. */
  lemma TopKLeftOut(s: seq<Ranked<int>>, k: nat)
    requires StartsIncrease(s)
    ensures Outranks(TopK(s, k), s)
  {
    var r := TopK(s, k);
    forall w, i | w in s && w !in r && 0 <= i < |r|
      ensures w.score <= r[i].score && (w.score == r[i].score ==> r[i].item < w.item)
    {
      assert w in multiset(s) - multiset(r);
      if w.score == r[i].score {
        LeftOutTieStartsLater(s, r, w, r[i]);
      }
    }
  }

  /** The busiest hours of a chronological log, read off the raw request
      times: each listed window is scored with the number of requests whose
      time lies in its closed hour. */
  lemma BusiestHoursOfLog(ts: seq<int>)
    requires ts != [] && Sorted(ts)
    ensures Increasing(Bucketed(ts))
    ensures var r := TopK(AllWindows(Bucketed(ts)), TopCount);
      && |r| == Min(TopCount, ts[|ts| - 1] - ts[0] + 2)
      && NonIncreasing(r) && EarlierFirst(r)
      && forall i :: 0 <= i < |r| ==> IsHourOf(ts, r[i])
  {
    var b := Bucketed(ts);
    BucketedIncreasing(ts);
    BucketedCounts(ts);
    TopHours(b);
    var r := TopK(AllWindows(b), TopCount);
    forall i | 0 <= i < |r|
      ensures IsHourOf(ts, r[i])
    {
      assert IsWindow(b, r[i]);
      assert WindowCount(b, r[i].item, r[i].item + HourSpan) == CountIn(ts, r[i].item, r[i].item + HourSpan);
    }
  }

  /** `w` is an hour of the request times `ts`: it starts between the first
      request's second and one past the last one's, and is scored with the
      number of requests in its closed hour. */
  ghost predicate IsHourOf(ts: seq<int>, w: Ranked<int>)
    requires ts != []
  {
    ts[0] <= w.item <= ts[|ts| - 1] + 1 && w.score == CountIn(ts, w.item, w.item + HourSpan)
  }

  /** The hour is closed at both ends: a request exactly 3600 seconds after
      the first one still falls in the first window. */
  lemma ClosedHour()
    ensures var b := [Bucket(0, 1), Bucket(3600, 1)];
      Increasing(b) && AllWindows(b)[0].score == 2
  {
    var b := [Bucket(0, 1), Bucket(3600, 1)];
    assert b[..1] == [Bucket(0, 1)] && b[..1][..0] == [];
    assert AllWindows(b)[0] == Ranked(0, WindowCount(b, 0, HourSpan));
  }
}
