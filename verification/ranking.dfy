/** Top-10 selection: the stable sort by value, descending, followed by a
    truncation, that the log processor applies to its dictionaries and to
    its list of one-hour windows. */
module Ranking {

  /** An entry to rank: a dictionary item (key, value) or a window
      (start, number of accesses).  Only the score is compared. */
  datatype Ranked<T> = Ranked(item: T, score: int)

  /** How many entries every report keeps. */
  const TopCount: nat := 10

  function Min(a: int, b: int): int
  {
    if a <= b then a else b
  }

  ghost predicate NonIncreasing<T>(s: seq<Ranked<T>>)
  {
    forall i, j :: 0 <= i < j < |s| ==> s[i].score >= s[j].score
  }

  /** The entries of `s` whose score is `v`, in their order in `s`.
      Two arrangements of the same entries agree on every `WithScore`
      exactly when they keep the tied entries in the same order. */
  function WithScore<T>(s: seq<Ranked<T>>, v: int): seq<Ranked<T>>
  {
    if s == [] then []
    else (if s[0].score == v then [s[0]] else []) + WithScore(s[1..], v)
  }

  /** `x` is selected by `WithScore(s, v)` exactly when it is an entry of
      `s` with score `v`. */
  lemma {:induction false} WithScoreMember<T>(s: seq<Ranked<T>>, v: int, x: Ranked<T>)
    ensures x in WithScore(s, v) <==> x in s && x.score == v
  {
    if s != [] {
      WithScoreMember(s[1..], v, x);
      assert s == [s[0]] + s[1..];
    }
  }

  /** Places `x` in front of the first entry of `s` whose score is not
      larger than its own. */
  function Insert<T(==)>(x: Ranked<T>, s: seq<Ranked<T>>): (r: seq<Ranked<T>>)
    ensures |r| == |s| + 1
    ensures multiset(r) == multiset(s) + multiset{x}
    ensures r[0] == x || (s != [] && r[0] == s[0])
  {
    if s == [] || x.score >= s[0].score then [x] + s
    else
      assert s == [s[0]] + s[1..];
      [s[0]] + Insert(x, s[1..])
  }

  /** Inserting into a non-increasing sequence keeps it non-increasing. */
  lemma {:induction false} InsertSorted<T>(x: Ranked<T>, s: seq<Ranked<T>>)
    requires NonIncreasing(s)
    ensures NonIncreasing(Insert(x, s))
  {
    if s != [] && x.score < s[0].score {
      var tail := Insert(x, s[1..]);
      InsertSorted(x, s[1..]);
      var r := Insert(x, s);
      assert r == [s[0]] + tail;
      assert tail[0].score <= s[0].score;
      forall i, j | 0 <= i < j < |r|
        ensures r[i].score >= r[j].score
      {
        if i == 0 {
          assert r[j] == tail[j - 1];
          assert tail[0].score >= tail[j - 1].score;
        } else {
          assert r[i] == tail[i - 1] && r[j] == tail[j - 1];
        }
      }
    }
  }

  /** `Insert` puts `x` in front of the entries that tie with it. */
  lemma {:induction false} InsertTies<T>(x: Ranked<T>, s: seq<Ranked<T>>, v: int)
    ensures WithScore(Insert(x, s), v) == if x.score == v then [x] + WithScore(s, v) else WithScore(s, v)
  {
    if s == [] || x.score >= s[0].score {
      assert ([x] + s)[1..] == s;
    } else {
      InsertTies(x, s[1..], v);
      var r := Insert(x, s);
      assert r[1..] == Insert(x, s[1..]);
    }
  }

  /** Sorting by score, descending, keeping tied entries in their original
      order (the behaviour of a stable sort asked to reverse). */
  function SortDesc<T(==)>(s: seq<Ranked<T>>): (r: seq<Ranked<T>>)
    ensures |r| == |s|
    ensures multiset(r) == multiset(s)
    ensures NonIncreasing(r)
    ensures forall v :: WithScore(r, v) == WithScore(s, v)
  {
    if s == [] then []
    else
      assert s == [s[0]] + s[1..];
      var r := Insert(s[0], SortDesc(s[1..]));
      InsertSorted(s[0], SortDesc(s[1..]));
      assert forall v :: WithScore(r, v) == WithScore(s, v) by {
        forall v
          ensures WithScore(r, v) == WithScore(s, v)
        {
          InsertTies(s[0], SortDesc(s[1..]), v);
        }
      }
      r
  }

  /** The first `k` entries of the stable descending sort of `s`. */
  function TopK<T(==)>(s: seq<Ranked<T>>, k: nat): (r: seq<Ranked<T>>)
    ensures |r| == Min(k, |s|)
    ensures NonIncreasing(r)
    ensures multiset(r) <= multiset(s)
    ensures forall x, i :: x in multiset(s) - multiset(r) && 0 <= i < |r| ==> x.score <= r[i].score
    ensures forall v :: IsPrefix(WithScore(r, v), WithScore(s, v))
  {
    var t := SortDesc(s);
    var r := t[..Min(k, |s|)];
    TopKFacts(s, t, r);
    r
  }

  predicate IsPrefix<T(==)>(a: seq<T>, b: seq<T>)
  {
    |a| <= |b| && a == b[..|a|]
  }

  lemma TopKFacts<T>(s: seq<Ranked<T>>, t: seq<Ranked<T>>, r: seq<Ranked<T>>)
    requires t == SortDesc(s) && IsPrefix(r, t)
    ensures NonIncreasing(r)
    ensures multiset(r) <= multiset(s)
    ensures forall x, i :: x in multiset(s) - multiset(r) && 0 <= i < |r| ==> x.score <= r[i].score
    ensures forall v :: IsPrefix(WithScore(r, v), WithScore(s, v))
  {
    TopKBound(s, t, r);
    assert NonIncreasing(r);
    forall v
      ensures IsPrefix(WithScore(r, v), WithScore(s, v))
    {
      WithScorePrefix(r, t, v);
    }
  }

  lemma TopKBound<T>(s: seq<Ranked<T>>, t: seq<Ranked<T>>, r: seq<Ranked<T>>)
    requires multiset(t) == multiset(s) && NonIncreasing(t) && IsPrefix(r, t)
    ensures multiset(r) <= multiset(s)
    ensures forall x, i :: x in multiset(s) - multiset(r) && 0 <= i < |r| ==> x.score <= r[i].score
  {
    SplitMultiset(t, |r|);
    forall x, i | x in multiset(s) - multiset(r) && 0 <= i < |r|
      ensures x.score <= r[i].score
    {
      TailBelow(t, |r|, x, i);
    }
  }

  /** Cutting a sequence in two splits its multiset in two. */
  lemma SplitMultiset<T>(t: seq<T>, n: nat)
    requires n <= |t|
    ensures multiset(t[..n]) <= multiset(t)
    ensures multiset(t) - multiset(t[..n]) == multiset(t[n..])
  {
    assert t == t[..n] + t[n..];
  }

  /** In a non-increasing sequence, nothing after position `n` outranks
      anything before it. */
  lemma TailBelow<T>(t: seq<Ranked<T>>, n: nat, x: Ranked<T>, i: int)
    requires NonIncreasing(t) && n <= |t| && x in multiset(t[n..]) && 0 <= i < n
    ensures x.score <= t[i].score
  {
    var j :| n <= j < |t| && t[j] == x;
  }

  /** Selecting the tied entries commutes with taking a prefix. */
  lemma {:induction false} WithScorePrefix<T>(a: seq<Ranked<T>>, b: seq<Ranked<T>>, v: int)
    requires |a| <= |b| && a == b[..|a|]
    ensures |WithScore(a, v)| <= |WithScore(b, v)|
    ensures WithScore(a, v) == WithScore(b, v)[..|WithScore(a, v)|]
  {
    if a != [] {
      assert a[1..] == b[1..][..|a[1..]|];
      WithScorePrefix(a[1..], b[1..], v);
    }
  }

  /** An entry whose score does not occur is selected by no `WithScore`. */
  lemma {:induction false} WithScoreAbsent<T>(s: seq<Ranked<T>>, v: int)
    requires forall i :: 0 <= i < |s| ==> s[i].score != v
    ensures WithScore(s, v) == []
  {
    if s != [] {
      WithScoreAbsent(s[1..], v);
    }
  }

  lemma NonEmptyHasTies<T>(s: seq<Ranked<T>>)
    ensures s != [] ==> WithScore(s, s[0].score) != []
  {
  }

  /** A non-increasing arrangement is determined by its tie order: two
      non-increasing sequences that list the entries of each score in the
      same order are equal. */
  lemma {:induction false} StableSortUnique<T>(a: seq<Ranked<T>>, b: seq<Ranked<T>>)
    requires NonIncreasing(a) && NonIncreasing(b)
    requires forall v :: WithScore(a, v) == WithScore(b, v)
    ensures a == b
    decreases |a|
  {
    if a == [] || b == [] {
      NonEmptyHasTies(a);
      NonEmptyHasTies(b);
    } else {
      var m := a[0].score;
      if b[0].score > m {
        WithScoreAbsent(a, b[0].score);
        NonEmptyHasTies(b);
      } else if b[0].score < m {
        WithScoreAbsent(b, m);
        NonEmptyHasTies(a);
      }
      assert b[0].score == m;
      assert WithScore(a, m)[0] == a[0];
      assert WithScore(b, m)[0] == b[0];
      forall v
        ensures WithScore(a[1..], v) == WithScore(b[1..], v)
      {
        if v == m {
          assert WithScore(a, v) == [a[0]] + WithScore(a[1..], v);
          assert WithScore(b, v) == [b[0]] + WithScore(b[1..], v);
          assert WithScore(a[1..], v) == WithScore(a, v)[1..];
          assert WithScore(b[1..], v) == WithScore(b, v)[1..];
        } else {
          assert WithScore(a, v) == WithScore(a[1..], v);
          assert WithScore(b, v) == WithScore(b[1..], v);
        }
      }
      StableSortUnique(a[1..], b[1..]);
      assert a == [a[0]] + a[1..];
      assert b == [b[0]] + b[1..];
    }
  }

  /** `SortDesc` is the one stable descending sort: any non-increasing
      arrangement of `s` that keeps tied entries in their order in `s` is
      `SortDesc(s)`. */
  lemma SortDescIsTheStableSort<T>(s: seq<Ranked<T>>, t: seq<Ranked<T>>)
    requires NonIncreasing(t)
    requires forall v :: WithScore(t, v) == WithScore(s, v)
    ensures t == SortDesc(s)
  {
    StableSortUnique(t, SortDesc(s));
  }
}
