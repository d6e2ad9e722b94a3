/**
 `groupby(key).agg(sum)` and `groupby(key).size()` over keyed values, and the
 percentage columns the pie charts are drawn from.
 */
module Grouping {
  import opened Seqs

  /** Sum of all values. */
  function ValueTotal<K>(kv: seq<(K, int)>): int
    decreases |kv|
  {
    if kv == [] then 0 else kv[0].1 + ValueTotal(kv[1..])
  }

  /** Sum of the values filed under key `k`: the reference definition of a group's value. */
  function SumOf<K(==)>(kv: seq<(K, int)>, k: K): int
    decreases |kv|
  {
    if kv == [] then 0 else (if kv[0].0 == k then kv[0].1 else 0) + SumOf(kv[1..], k)
  }

  /** The keys occurring among keyed values. */
  function KeysOf<K>(kv: seq<(K, int)>): set<K> {
    set p | p in kv :: p.0
  }

  function KeyOf<K>(p: (K, int)): K {
    p.0
  }

  lemma ValueTotalConcat<K>(a: seq<(K, int)>, b: seq<(K, int)>)
    ensures ValueTotal(a + b) == ValueTotal(a) + ValueTotal(b)
    decreases |a|
  {
    if a == [] {
      assert a + b == b;
    } else {
      assert (a + b)[1..] == a[1..] + b;
      ValueTotalConcat(a[1..], b);
    }
  }

  lemma SumOfConcat<K>(a: seq<(K, int)>, b: seq<(K, int)>, k: K)
    ensures SumOf(a + b, k) == SumOf(a, k) + SumOf(b, k)
    decreases |a|
  {
    if a == [] {
      assert a + b == b;
    } else {
      assert (a + b)[1..] == a[1..] + b;
      SumOfConcat(a[1..], b, k);
    }
  }

  lemma {:induction false} SumOfAbsent<K>(kv: seq<(K, int)>, k: K)
    requires k !in KeysOf(kv)
    ensures SumOf(kv, k) == 0
    decreases |kv|
  {
    if kv != [] {
      assert kv[0] in kv;
      assert KeysOf(kv[1..]) <= KeysOf(kv) by {
        forall q | q in kv[1..]
          ensures q in kv
        {
        }
      }
      SumOfAbsent(kv[1..], k);
    }
  }

  lemma KeysOfConcat<K>(a: seq<(K, int)>, b: seq<(K, int)>)
    ensures KeysOf(a + b) == KeysOf(a) + KeysOf(b)
  {
    forall k | k in KeysOf(a + b)
      ensures k in KeysOf(a) + KeysOf(b)
    {
      var q :| q in a + b && q.0 == k;
      assert q in a || q in b;
    }
  }

  /** Groups with pairwise distinct keys number as many as their keys. */
  lemma {:induction false} DistinctKeysCount<K>(g: seq<(K, int)>)
    requires DistinctBy(g, KeyOf)
    ensures |KeysOf(g)| == |g|
    decreases |g|
  {
    if g != [] {
      DistinctKeysCount(g[1..]);
      assert g == [g[0]] + g[1..];
      KeysOfConcat([g[0]], g[1..]);
      assert KeysOf([g[0]]) == {g[0].0};
      FirstKeyNotInRest(g);
    }
  }

  lemma FirstKeyNotInRest<K>(g: seq<(K, int)>)
    requires g != []
    requires DistinctBy(g, KeyOf)
    ensures g[0].0 !in KeysOf(g[1..])
  {
    forall q | q in g[1..]
      ensures q.0 != g[0].0
    {
      var k :| 0 <= k < |g[1..]| && g[1..][k] == q;
      assert g[k + 1] == q;
      assert KeyOf(g[0]) != KeyOf(g[k + 1]);
    }
  }

  /** Position of the group with key `k`, or the number of groups when there is none. */
  function IndexOfKey<K(==)>(g: seq<(K, int)>, k: K): (i: nat)
    ensures i <= |g|
    ensures i < |g| ==> g[i].0 == k
    ensures forall j :: 0 <= j < i ==> g[j].0 != k
    decreases |g|
  {
    if g == [] then 0 else if g[0].0 == k then 0 else 1 + IndexOfKey(g[1..], k)
  }

  lemma {:induction false} ValueTotalUpdate<K>(g: seq<(K, int)>, i: nat, k: K, v: int)
    requires i < |g|
    ensures ValueTotal(g[i := (k, g[i].1 + v)]) == ValueTotal(g) + v
    decreases |g|
  {
    if i > 0 {
      ValueTotalUpdate(g[1..], i - 1, k, v);
      assert g[i := (k, g[i].1 + v)][1..] == g[1..][i - 1 := (k, g[i].1 + v)];
    }
  }

  /** Accumulate one keyed value: add it to its key's group, or open a new group at the end. */
  function Accumulate<K(==)>(g: seq<(K, int)>, p: (K, int)): seq<(K, int)> {
    var i := IndexOfKey(g, p.0);
    if i == |g| then g + [p] else g[i := (p.0, g[i].1 + p.1)]
  }

  /**
   Group keyed values: one group per distinct key, in order of first
   appearance, holding the sum of that key's values.
   */
  function GroupSum<K(==)>(kv: seq<(K, int)>): (r: seq<(K, int)>)
    ensures DistinctBy(r, KeyOf)
    ensures KeysOf(r) == KeysOf(kv)
    ensures forall i :: 0 <= i < |r| ==> r[i].1 == SumOf(kv, r[i].0)
    ensures ValueTotal(r) == ValueTotal(kv)
    ensures |r| == |KeysOf(kv)|
    decreases |kv|
  {
    if kv == [] then []
    else
      var init := kv[..|kv| - 1];
      var p := kv[|kv| - 1];
      assert kv == init + [p];
      var g := GroupSum(init);
      var r := Accumulate(g, p);
      AccumulateSummarises(init, g, p);
      DistinctKeysCount(r);
      r
  }

  /**
   A table built row by row from groups carries exactly the group keys: each
   row's key is a group key, and each group key is some row's key.
   */
  lemma RowsCoverKeys<T, K>(groups: seq<(K, int)>, r: seq<T>, key: T -> K)
    requires |r| == |groups|
    requires forall i :: 0 <= i < |r| ==> key(r[i]) == groups[i].0
    ensures forall i :: 0 <= i < |r| ==> key(r[i]) in KeysOf(groups)
    ensures forall k :: k in KeysOf(groups) ==> exists i :: 0 <= i < |r| && key(r[i]) == k
  {
    forall i | 0 <= i < |r|
      ensures key(r[i]) in KeysOf(groups)
    {
      assert groups[i] in groups;
    }
    forall k | k in KeysOf(groups)
      ensures exists i :: 0 <= i < |r| && key(r[i]) == k
    {
      var q :| q in groups && q.0 == k;
      var i :| 0 <= i < |groups| && groups[i] == q;
      assert key(r[i]) == k;
    }
  }

  lemma AccumulateSummarises<K>(kv: seq<(K, int)>, g: seq<(K, int)>, p: (K, int))
    requires DistinctBy(g, KeyOf)
    requires KeysOf(g) == KeysOf(kv)
    requires forall i :: 0 <= i < |g| ==> g[i].1 == SumOf(kv, g[i].0)
    requires ValueTotal(g) == ValueTotal(kv)
    ensures var r := Accumulate(g, p);
      && DistinctBy(r, KeyOf)
      && KeysOf(r) == KeysOf(kv + [p])
      && (forall i :: 0 <= i < |r| ==> r[i].1 == SumOf(kv + [p], r[i].0))
      && ValueTotal(r) == ValueTotal(kv + [p])
  {
    var r := Accumulate(g, p);
    var i := IndexOfKey(g, p.0);
    ValueTotalConcat(kv, [p]);
    KeysOfConcat(kv, [p]);
    assert KeysOf([p]) == {p.0};
    forall k
      ensures SumOf(kv + [p], k) == SumOf(kv, k) + (if p.0 == k then p.1 else 0)
    {
      SumOfConcat(kv, [p], k);
    }
    if i == |g| {
      ValueTotalConcat(g, [p]);
      KeysOfConcat(g, [p]);
      assert p.0 !in KeysOf(g) by {
        forall q | q in g
          ensures q.0 != p.0
        {
          var j :| 0 <= j < |g| && g[j] == q;
        }
      }
      SumOfAbsent(kv, p.0);
    } else {
      ValueTotalUpdate(g, i, p.0, p.1);
      assert KeysOf(r) == KeysOf(g) by {
        forall k | k in KeysOf(g)
          ensures k in KeysOf(r)
        {
          var j :| 0 <= j < |g| && g[j].0 == k;
          assert r[j].0 == k;
        }
      }
    }
  }

  /** A pie slice's percentage: pandas' float division, which yields NaN or an
      infinity rather than failing when the total is zero. */
  datatype Percent = Finite(value: real) | NaN | PosInf | NegInf

  /** `100 * value / total`. */
  function PercentOf(value: int, total: int): (p: Percent)
    ensures p.Finite? <==> total != 0
    ensures p.Finite? ==> p.value * total as real == 100.0 * value as real
    ensures total > 0 && 0 <= value <= total ==> 0.0 <= p.value <= 100.0
    ensures total == 0 ==> (p.PosInf? <==> value > 0) && (p.NegInf? <==> value < 0) && (p.NaN? <==> value == 0)
  {
    if total != 0 then Finite(100.0 * value as real / total as real)
    else if value > 0 then PosInf
    else if value < 0 then NegInf
    else NaN
  }

  /** `percent > threshold`: false for NaN, true for positive infinity. */
  predicate Exceeds(p: Percent, threshold: real) {
    match p
    case Finite(x) => x > threshold
    case PosInf => true
    case _ => false
  }

  /** Label thresholds, in percent. */
  const EquipmentLabelThreshold: real := 5.0
  const BoostLabelThreshold: real := 3.0
  const OwnershipLabelThreshold: real := 3.0

  /** One row of a distribution table: category, value, percent, show_label. */
  datatype Slice<K> = Slice(key: K, value: int, percent: Percent, showLabel: bool)

  function SlicesOver<K>(groups: seq<(K, int)>, total: int, threshold: real): (r: seq<Slice<K>>)
    ensures |r| == |groups|
    ensures forall i :: 0 <= i < |r| ==> r[i].key == groups[i].0 && r[i].value == groups[i].1
    ensures forall i :: 0 <= i < |r| ==> r[i].percent == PercentOf(groups[i].1, total)
    ensures forall i :: 0 <= i < |r| ==> (r[i].showLabel <==> Exceeds(r[i].percent, threshold))
    decreases |groups|
  {
    if groups == [] then []
    else
      var p := PercentOf(groups[0].1, total);
      [Slice(groups[0].0, groups[0].1, p, Exceeds(p, threshold))] + SlicesOver(groups[1..], total, threshold)
  }

  /** The distribution table of grouped values: each slice's share of the total,
      and whether its label clears the threshold. */
  function Distribution<K>(groups: seq<(K, int)>, threshold: real): (r: seq<Slice<K>>)
    ensures |r| == |groups|
    ensures forall i :: 0 <= i < |r| ==> r[i].key == groups[i].0 && r[i].value == groups[i].1
    ensures forall i :: 0 <= i < |r| ==> r[i].percent == PercentOf(groups[i].1, ValueTotal(groups))
    ensures forall i :: 0 <= i < |r| ==> (r[i].showLabel <==> Exceeds(r[i].percent, threshold))
  {
    SlicesOver(groups, ValueTotal(groups), threshold)
  }

  /** The categories of a distribution table. */
  function SliceKeys<K>(slices: seq<Slice<K>>): set<K> {
    set s | s in slices :: s.key
  }

  /** A distribution table has a slice for every group key and for nothing else. */
  lemma DistributionKeys<K>(groups: seq<(K, int)>, threshold: real)
    ensures SliceKeys(Distribution(groups, threshold)) == KeysOf(groups)
  {
    var d := Distribution(groups, threshold);
    forall k | k in KeysOf(groups)
      ensures k in SliceKeys(d)
    {
      var q :| q in groups && q.0 == k;
      var i :| 0 <= i < |groups| && groups[i] == q;
      assert d[i] in d;
    }
    forall k | k in SliceKeys(d)
      ensures k in KeysOf(groups)
    {
      var sl :| sl in d && sl.key == k;
      var i :| 0 <= i < |d| && d[i] == sl;
      assert groups[i] in groups;
    }
  }

  /** Sum of the finite percentages of some slices. */
  function PercentSum<K>(slices: seq<Slice<K>>): real
    decreases |slices|
  {
    if slices == [] then 0.0
    else (if slices[0].percent.Finite? then slices[0].percent.value else 0.0) + PercentSum(slices[1..])
  }

  lemma {:induction false} SlicesOverPercentSum<K>(groups: seq<(K, int)>, total: int, threshold: real)
    requires total != 0
    ensures PercentSum(SlicesOver(groups, total, threshold)) == 100.0 * ValueTotal(groups) as real / total as real
    decreases |groups|
  {
    if groups != [] {
      SlicesOverPercentSum(groups[1..], total, threshold);
      var v := groups[0].1 as real;
      var rest := ValueTotal(groups[1..]) as real;
      var t := total as real;
      DivideSum(100.0 * v, 100.0 * rest, t);
      assert ValueTotal(groups) as real == v + rest;
    }
  }

  lemma DivideSum(a: real, b: real, t: real)
    requires t != 0.0
    ensures a / t + b / t == (a + b) / t
  {
  }

  lemma HundredOverSelf(t: real)
    requires t != 0.0
    ensures 100.0 * t / t == 100.0
  {
  }

  /** Whenever the total is nonzero, every percentage is a number and they add up to 100. */
  lemma PercentagesSumTo100<K>(groups: seq<(K, int)>, threshold: real)
    requires ValueTotal(groups) != 0
    ensures forall i :: 0 <= i < |groups| ==> Distribution(groups, threshold)[i].percent.Finite?
    ensures PercentSum(Distribution(groups, threshold)) == 100.0
  {
    var t := ValueTotal(groups);
    var slices := SlicesOver(groups, t, threshold);
    assert Distribution(groups, threshold) == slices;
    SlicesOverPercentSum(groups, t, threshold);
    HundredOverSelf(t as real);
  }

  /** A zero total of non-negative values shows no label at all: every percentage is NaN. */
  lemma ZeroTotalShowsNoLabel<K>(groups: seq<(K, int)>, threshold: real)
    requires ValueTotal(groups) == 0
    requires forall i :: 0 <= i < |groups| ==> 0 <= groups[i].1
    ensures forall i :: 0 <= i < |groups| ==> !Distribution(groups, threshold)[i].showLabel
  {
    forall i | 0 <= i < |groups|
      ensures groups[i].1 == 0
    {
      NonNegativePartBound(groups, i);
    }
  }

  lemma {:induction false} NonNegativePartBound<K>(groups: seq<(K, int)>, i: nat)
    requires i < |groups|
    requires forall j :: 0 <= j < |groups| ==> 0 <= groups[j].1
    ensures groups[i].1 <= ValueTotal(groups)
    decreases i
  {
    NonNegativeTotal(groups[1..]);
    if i > 0 {
      NonNegativePartBound(groups[1..], i - 1);
    }
  }

  lemma {:induction false} NonNegativeTotal<K>(groups: seq<(K, int)>)
    requires forall j :: 0 <= j < |groups| ==> 0 <= groups[j].1
    ensures 0 <= ValueTotal(groups)
    decreases |groups|
  {
    if groups != [] {
      NonNegativeTotal(groups[1..]);
    }
  }

  /** Sum of the slice values of a distribution table. */
  function SliceTotal<K>(slices: seq<Slice<K>>): int
    decreases |slices|
  {
    if slices == [] then 0 else slices[0].value + SliceTotal(slices[1..])
  }

  lemma {:induction false} SlicesOverTotal<K>(groups: seq<(K, int)>, total: int, threshold: real)
    ensures SliceTotal(SlicesOver(groups, total, threshold)) == ValueTotal(groups)
    decreases |groups|
  {
    if groups != [] {
      SlicesOverTotal(groups[1..], total, threshold);
    }
  }

  /** A distribution table keeps every value: its slices add up to the grouped total. */
  lemma DistributionKeepsTotal<K>(groups: seq<(K, int)>, threshold: real)
    ensures SliceTotal(Distribution(groups, threshold)) == ValueTotal(groups)
  {
    SlicesOverTotal(groups, ValueTotal(groups), threshold);
  }
}
