/** The accumulating dictionaries of the log processor: host -> number of
    requests, resource -> bytes delivered, host -> bytes delivered.  A
    Python dictionary remembers the order in which its keys were first
    inserted, and that order decides how ties are listed in the top-10, so
    a tally is the keys in insertion order together with their values. */
module Tallies {
  import opened Ranking

  datatype Tally = Tally(keys: seq<string>, value: map<string, nat>)
  {
    /** Every key is listed once, and the listed keys are the keys of the
        map. */
    ghost predicate Valid()
    {
      Distinct(keys) && value.Keys == KeySet(keys)
    }

    /** `d.get(k, 0)`. */
    function Get(k: string): nat
    {
      if k in value then value[k] else 0
    }

    /** The sum of all values. */
    function Total(): nat
    {
      SumOver(keys)
    }

    function SumOver(ks: seq<string>): nat
    {
      if ks == [] then 0 else SumOver(ks[..|ks| - 1]) + Get(ks[|ks| - 1])
    }

    /** `d[k] = d.get(k, 0) + n`: a new key goes to the end of the
        insertion order, an existing key keeps its place. */
    function Add(k: string, n: nat): (r: Tally)
      requires Valid()
      ensures r.Valid()
      ensures r.Get(k) == Get(k) + n
      ensures forall j :: j != k ==> r.Get(j) == Get(j)
      ensures k in value ==> r.keys == keys
      ensures k !in value ==> r.keys == keys + [k]
      ensures r.Total() == Total() + n
    {
      var r := Tally(if k in value then keys else keys + [k], value[k := Get(k) + n]);
      AddValid(k, n, r);
      AddTotal(k, n, r);
      r
    }

    lemma AddValid(k: string, n: nat, r: Tally)
      requires Valid()
      requires r == Tally(if k in value then keys else keys + [k], value[k := Get(k) + n])
      ensures r.Valid()
    {
      if k !in value {
        KeySetMember(keys, k);
        assert (keys + [k])[..|keys|] == keys;
      }
    }

    lemma AddTotal(k: string, n: nat, r: Tally)
      requires Valid()
      requires r == Tally(if k in value then keys else keys + [k], value[k := Get(k) + n])
      ensures r.Total() == Total() + n
    {
      KeySetMember(keys, k);
      if k in value {
        SumOverBump(keys, k, n, r);
      } else {
        SumOverOthers(keys, k, r);
        assert (keys + [k])[..|keys|] == keys;
      }
    }

    /** Changing the value of a key that `ks` does not list leaves the sum
        over `ks` alone. */
    lemma {:induction false} SumOverOthers(ks: seq<string>, k: string, r: Tally)
      requires k !in ks
      requires forall j :: j != k ==> r.Get(j) == Get(j)
      ensures r.SumOver(ks) == SumOver(ks)
    {
      if ks != [] {
        SumOverOthers(ks[..|ks| - 1], k, r);
      }
    }

    /** Raising the value of a key that `ks` lists once raises the sum by
        the same amount. */
    lemma {:induction false} SumOverBump(ks: seq<string>, k: string, n: nat, r: Tally)
      requires k in ks && Distinct(ks)
      requires r.Get(k) == Get(k) + n
      requires forall j :: j != k ==> r.Get(j) == Get(j)
      ensures r.SumOver(ks) == SumOver(ks) + n
    {
      var front := ks[..|ks| - 1];
      if ks[|ks| - 1] == k {
        SumOverOthers(front, k, r);
      } else {
        assert ks == front + [ks[|ks| - 1]];
        SumOverBump(front, k, n, r);
      }
    }

    /** The `(key, value)` pairs in insertion order: `d.items()`. */
    function Items(): (r: seq<Ranked<string>>)
      requires Valid()
      ensures |r| == |keys|
      ensures forall i :: 0 <= i < |r| ==> r[i] == Ranked(keys[i], Get(keys[i]))
      ensures forall i, j :: 0 <= i < j < |r| ==> r[i].item != r[j].item
    {
      var r := seq(|keys|, i requires 0 <= i < |keys| => Ranked(keys[i], Get(keys[i])));
      forall i, j | 0 <= i < j < |r|
        ensures r[i].item != r[j].item
      {
        DistinctApart(keys, i, j);
      }
      r
    }
  }

  const Empty: Tally := Tally([], map[])

  /** No key is listed twice. */
  ghost predicate Distinct(ks: seq<string>)
  {
    ks == [] || (Distinct(ks[..|ks| - 1]) && ks[|ks| - 1] !in ks[..|ks| - 1])
  }

  /** The keys listed. */
  ghost function KeySet(ks: seq<string>): set<string>
  {
    if ks == [] then {} else KeySet(ks[..|ks| - 1]) + {ks[|ks| - 1]}
  }

  lemma {:induction false} KeySetMember(ks: seq<string>, k: string)
    ensures k in KeySet(ks) <==> k in ks
  {
    if ks != [] {
      KeySetMember(ks[..|ks| - 1], k);
      assert ks == ks[..|ks| - 1] + [ks[|ks| - 1]];
    }
  }

  /** Distinct keys differ at any two places. */
  lemma {:induction false} DistinctApart(ks: seq<string>, i: int, j: int)
    requires Distinct(ks) && 0 <= i < j < |ks|
    ensures ks[i] != ks[j]
  {
    var front := ks[..|ks| - 1];
    if j == |ks| - 1 {
      assert ks[i] == front[i];
    } else {
      DistinctApart(front, i, j);
    }
  }

  /** The selection `sorted(d.items(), key=value, reverse=True)[0:10]`. */
  function TopTen(d: Tally): (r: seq<Ranked<string>>)
    requires d.Valid()
    ensures |r| == Min(TopCount, |d.keys|)
    ensures NonIncreasing(r)
    ensures forall i :: 0 <= i < |r| ==> r[i].item in d.keys && r[i].score == d.Get(r[i].item)
    ensures forall k, i :: k in d.keys && 0 <= i < |r| && k !in ItemsOf(r) ==> d.Get(k) <= r[i].score
    ensures forall i, j :: 0 <= i < j < |r| ==> r[i].item != r[j].item
    ensures forall v :: IsPrefix(WithScore(r, v), WithScore(d.Items(), v))
  {
    var items := d.Items();
    var r := TopK(items, TopCount);
    TopTenFacts(d, items, r);
    TopTenDistinct(d, items, r);
    r
  }

  /** An entry listed twice would be taken twice from `d.items()`, which
      lists every key once. */
  lemma TopTenDistinct(d: Tally, items: seq<Ranked<string>>, r: seq<Ranked<string>>)
    requires d.Valid() && items == d.Items()
    requires multiset(r) <= multiset(items)
    requires forall i :: 0 <= i < |r| ==> r[i].score == d.Get(r[i].item)
    ensures forall i, j :: 0 <= i < j < |r| ==> r[i].item != r[j].item
  {
    forall i, j | 0 <= i < j < |r|
      ensures r[i].item != r[j].item
    {
      if r[i].item == r[j].item {
        assert r[i] == r[j];
        TwiceCounted(r, i, j);
        AtMostOnce(items, r[i]);
        assert false;
      }
    }
  }

  /** An entry at two places of a sequence occurs twice in its multiset. */
  lemma TwiceCounted<T>(s: seq<T>, i: int, j: int)
    requires 0 <= i < j < |s| && s[i] == s[j]
    ensures multiset(s)[s[i]] >= 2
  {
    assert s == s[..j] + s[j..];
    assert s[i] in s[..j] && s[j] in s[j..];
  }

  /** In a sequence of entries with distinct items, no entry occurs twice. */
  lemma {:induction false} AtMostOnce(s: seq<Ranked<string>>, x: Ranked<string>)
    requires forall i, j :: 0 <= i < j < |s| ==> s[i].item != s[j].item
    ensures multiset(s)[x] <= 1
  {
    if s != [] {
      var front := s[..|s| - 1];
      assert s == front + [s[|s| - 1]];
      AtMostOnce(front, x);
      if x == s[|s| - 1] {
        assert x !in front by {
          forall k | 0 <= k < |front|
            ensures front[k] != x
          {
            assert front[k] == s[k];
          }
        }
      }
    }
  }

  function ItemsOf(r: seq<Ranked<string>>): set<string>
  {
    set i | 0 <= i < |r| :: r[i].item
  }

  lemma TopTenFacts(d: Tally, items: seq<Ranked<string>>, r: seq<Ranked<string>>)
    requires d.Valid() && items == d.Items()
    requires multiset(r) <= multiset(items)
    requires forall x, i :: x in multiset(items) - multiset(r) && 0 <= i < |r| ==> x.score <= r[i].score
    ensures forall i :: 0 <= i < |r| ==> r[i].item in d.keys && r[i].score == d.Get(r[i].item)
    ensures forall k, i :: k in d.keys && 0 <= i < |r| && k !in ItemsOf(r) ==> d.Get(k) <= r[i].score
  {
    forall i | 0 <= i < |r|
      ensures r[i].item in d.keys && r[i].score == d.Get(r[i].item)
    {
      assert r[i] in multiset(items);
      var j :| 0 <= j < |items| && items[j] == r[i];
    }
    forall k, i | k in d.keys && 0 <= i < |r| && k !in ItemsOf(r)
      ensures d.Get(k) <= r[i].score
    {
      var j :| 0 <= j < |d.keys| && d.keys[j] == k;
      var x := items[j];
      assert x == Ranked(k, d.Get(k));
      forall m | 0 <= m < |r|
        ensures r[m] != x
      {
        assert r[m].item in ItemsOf(r);
      }
      assert x in multiset(items) - multiset(r);
    }
  }

  /** The tally built from a sequence of `(key, amount)` charges, applied
      in order; its values are the per-key sums of the amounts. */
  function Accumulate(charges: seq<(string, nat)>): (r: Tally)
    ensures r.Valid()
    ensures forall k :: r.Get(k) == AmountFor(charges, k)
    ensures r.Total() == AmountOf(charges)
  {
    if charges == [] then Empty
    else
      var c := charges[|charges| - 1];
      Accumulate(charges[..|charges| - 1]).Add(c.0, c.1)
  }

  /** One more charge is one more `Add`. */
  lemma AccumulateSnoc(charges: seq<(string, nat)>, c: (string, nat))
    ensures Accumulate(charges + [c]) == Accumulate(charges).Add(c.0, c.1)
  {
    assert (charges + [c])[..|charges|] == charges;
  }

  /** Some charge goes to `k`. */
  ghost predicate Charged(charges: seq<(string, nat)>, k: string)
  {
    exists i :: 0 <= i < |charges| && charges[i].0 == k
  }

  /** `a` is charged before the first charge to `b`. */
  ghost predicate FirstChargedBefore(charges: seq<(string, nat)>, a: string, b: string)
  {
    exists i :: 0 <= i < |charges| && charges[i].0 == a && forall j :: 0 <= j <= i ==> charges[j].0 != b
  }

  /** `ks` lists every key that was charged and no other. */
  ghost predicate ListsCharged(ks: seq<string>, charges: seq<(string, nat)>)
  {
    forall k :: k in ks <==> Charged(charges, k)
  }

  /** `ks` lists its keys in the order of their first charges. */
  ghost predicate InChargeOrder(ks: seq<string>, charges: seq<(string, nat)>)
  {
    forall p, q :: 0 <= p < q < |ks| ==> FirstChargedBefore(charges, ks[p], ks[q])
  }

  /** The charged keys, each once, at the place of its first charge. */
  ghost function FirstCharges(charges: seq<(string, nat)>): seq<string>
  {
    if charges == [] then []
    else
      var ks, k := FirstCharges(charges[..|charges| - 1]), charges[|charges| - 1].0;
      if k in ks then ks else ks + [k]
  }

  /** The dictionary lists every key that was charged, even with amount 0,
      and no other, in the order of their first charges. */
  lemma AccumulateKeys(charges: seq<(string, nat)>)
    ensures forall k :: k in Accumulate(charges).keys <==> Charged(charges, k)
    ensures forall p, q :: 0 <= p < q < |Accumulate(charges).keys| ==>
      FirstChargedBefore(charges, Accumulate(charges).keys[p], Accumulate(charges).keys[q])
  {
    AccumulateKeysAre(charges);
    FirstChargesFacts(charges);
  }

  lemma {:induction false} AccumulateKeysAre(charges: seq<(string, nat)>)
    ensures Accumulate(charges).keys == FirstCharges(charges)
  {
    if charges != [] {
      var front := charges[..|charges| - 1];
      AccumulateKeysAre(front);
      KeySetMember(Accumulate(front).keys, charges[|charges| - 1].0);
    }
  }

  lemma {:induction false} FirstChargesFacts(charges: seq<(string, nat)>)
    ensures ListsCharged(FirstCharges(charges), charges)
    ensures InChargeOrder(FirstCharges(charges), charges)
  {
    if charges != [] {
      var front, c := charges[..|charges| - 1], charges[|charges| - 1];
      FirstChargesFacts(front);
      LastSplit(charges);
      MemberStep(FirstCharges(front), front, c);
      OrderStep(FirstCharges(front), front, c);
    }
  }

  lemma LastSplit(charges: seq<(string, nat)>)
    requires charges != []
    ensures charges == charges[..|charges| - 1] + [charges[|charges| - 1]]
  {
  }

  /** Appending a charge adds its key unless it is already listed. */
  lemma MemberStep(ks: seq<string>, front: seq<(string, nat)>, c: (string, nat))
    requires ListsCharged(ks, front)
    ensures ListsCharged(if c.0 in ks then ks else ks + [c.0], front + [c])
  {
    forall k
      ensures k in (if c.0 in ks then ks else ks + [c.0]) <==> Charged(front + [c], k)
    {
      ChargedSnoc(front, c, k);
    }
  }

  /** Appending a charge keeps a first-charge order, with a new key last. */
  lemma OrderStep(ks: seq<string>, front: seq<(string, nat)>, c: (string, nat))
    requires InChargeOrder(ks, front) && ListsCharged(ks, front)
    ensures InChargeOrder(if c.0 in ks then ks else ks + [c.0], front + [c])
  {
    var rs := if c.0 in ks then ks else ks + [c.0];
    forall p, q | 0 <= p < q < |rs|
      ensures FirstChargedBefore(front + [c], rs[p], rs[q])
    {
      assert rs[p] == ks[p];
      if q < |ks| {
        assert rs[q] == ks[q];
        EarlierStaysBefore(front, c, ks[p], ks[q]);
      } else {
        assert ks[p] in ks;
        NewKeyAfter(front, c, ks[p]);
      }
    }
  }

  lemma ChargedSnoc(front: seq<(string, nat)>, c: (string, nat), k: string)
    ensures Charged(front + [c], k) <==> Charged(front, k) || k == c.0
  {
    var cs := front + [c];
    if Charged(front, k) {
      var i :| 0 <= i < |front| && front[i].0 == k;
      assert cs[i] == front[i];
    }
    if Charged(cs, k) && k != c.0 {
      var i :| 0 <= i < |cs| && cs[i].0 == k;
      assert front[i] == cs[i];
    }
    if k == c.0 {
      assert cs[|front|].0 == k;
    }
  }

  /** A later charge does not change which of two keys came first. */
  lemma EarlierStaysBefore(front: seq<(string, nat)>, c: (string, nat), a: string, b: string)
    requires FirstChargedBefore(front, a, b)
    ensures FirstChargedBefore(front + [c], a, b)
  {
    var cs := front + [c];
    var i :| 0 <= i < |front| && front[i].0 == a && forall j :: 0 <= j <= i ==> front[j].0 != b;
    assert cs[i] == front[i];
    forall j | 0 <= j <= i
      ensures cs[j].0 != b
    {
      assert cs[j] == front[j];
    }
  }

  /** A key charged earlier comes before a key first charged now. */
  lemma NewKeyAfter(front: seq<(string, nat)>, c: (string, nat), a: string)
    requires Charged(front, a) && !Charged(front, c.0)
    ensures FirstChargedBefore(front + [c], a, c.0)
  {
    var cs := front + [c];
    var i :| 0 <= i < |front| && front[i].0 == a;
    assert cs[i] == front[i];
    forall j | 0 <= j <= i
      ensures cs[j].0 != c.0
    {
      assert cs[j] == front[j];
    }
  }

  /** The sum of the amounts charged to `k`. */
  function AmountFor(charges: seq<(string, nat)>, k: string): nat
  {
    if charges == [] then 0
    else
      var c := charges[|charges| - 1];
      AmountFor(charges[..|charges| - 1], k) + (if c.0 == k then c.1 else 0)
  }

  /** The sum of all amounts. */
  function AmountOf(charges: seq<(string, nat)>): nat
  {
    if charges == [] then 0
    else AmountOf(charges[..|charges| - 1]) + charges[|charges| - 1].1
  }
}
